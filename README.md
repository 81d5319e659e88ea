# Plugin list parser

A Dafny model of the plugin-specification parser of the Jenkins plugin installation
manager (`PluginListParser`) and of the plugin descriptor (`Plugin`) it produces.

There are three ways to ask for plugins, and each one yields a list of descriptors.
A descriptor has an artifactId, a version, an optional url and an optional groupId.

- **Command-line tokens.** Each token follows the grammar `artifactId[:version[:url]]`.
  - A missing or empty version means `latest`.
  - A trailing `:` is allowed.
  - The version segment `incrementals;groupId;version` pins an incremental build.
- **Text files.** Each non-blank line follows the same grammar.
- **YAML documents.** The document is a list of entries. Each entry has an `artifactId` and an optional `source` mapping with the keys `version`, `url` and `groupId`.
  - An entry without an artifactId is rejected.
  - An entry whose groupId has no version is rejected.

All three entry points share a few behaviours:

- Each returns an empty list for a null input.
- Each is fail-fast: the first entry that fails to parse decides the error.
- `fileExists` is false for a null file. Otherwise a filesystem probe answers.

Descriptors are compared the way the tests compare them: as sorted lists of their
canonical strings.

Modules:

- `Wrappers`: the `Option` and `Result` types.
- `Text`: splitting and joining at a delimiter, and blank lines.
- `Descriptor`: the descriptor, its well-formedness, the one constructor that normalises the version, and the errors.
- `TokenGrammar`: the token grammar, a renderer that is its inverse, and one lemma per form of the grammar.
- `Batch`: the generic fail-fast list parse, the command-line entry point and the text-file entry point.
- `Yaml`: the document tree, the YAML entry point, and a reading of entries key by key (`EntryDescribes`) that it is proved to agree with.
- `Canonical`: an injective canonical string for a descriptor. It is injective because it decodes back to the descriptor.
- `Ordering`: lexicographic string order by code point, insertion sort, and the uniqueness of the sorted arrangement.
- `Channels`: sorted canonical lists are equal exactly when the descriptor multisets are equal, and reordering a batch's inputs only reorders its descriptors.
- `ExistenceProbe`: `fileExists`.
- `ParserTestCases`: each case of the parser's unit tests, stated and proved.

## Model

| member | source | states |
|---|---|---|
| TokenGrammar.ParseToken | plugin-management-library/src/test/java/io/jenkins/tools/pluginmanager/util/PluginListParserTest.java:57-67 | A token that parses gives a well-formed descriptor: non-empty artifactId without ':', non-empty version, non-empty groupId when present. A failure is either an empty artifactId or a bad incremental segment. The empty-artifactId failure happens exactly when the token is empty or starts with ':'. |
| TokenGrammar.ParseVersionSegment | plugin-management-library/src/test/java/io/jenkins/tools/pluginmanager/util/PluginListParserTest.java:62 | A segment not in the incremental form gives its version (latest when empty) and no groupId, and never fails. A segment in the incremental form either fails with BadIncrementals or gives a groupId. A result with a groupId means the segment is exactly `incrementals;groupId;version`, with groupId and version non-empty and free of ';'. |
| TokenGrammar.IncrementalSegmentParses | plugin-management-library/src/test/java/io/jenkins/tools/pluginmanager/util/PluginListParserTest.java:62 | Converse: `incrementals;g;v` with g and v non-empty and free of ';' gives exactly version v and groupId g. With the segment's own contract, success with a groupId holds if and only if the segment has that shape. |
| TokenGrammar.SegmentExtraPart | plugin-management-library/src/test/java/io/jenkins/tools/pluginmanager/util/PluginListParserTest.java:62 | `incrementals;g;v;x` (a part after the version) is rejected with BadIncrementals. |
| TokenGrammar.SegmentEmptyPart | plugin-management-library/src/test/java/io/jenkins/tools/pluginmanager/util/PluginListParserTest.java:62 | `incrementals;g;v` with an empty groupId or an empty version is rejected with BadIncrementals. |
| TokenGrammar.ParseTokenShape | plugin-management-library/src/test/java/io/jenkins/tools/pluginmanager/util/PluginListParserTest.java:57-67 | For every token `artifactId:segment` with an optional `:url` after it: the token fails exactly when its version segment fails, with the segment's error. Otherwise it gives the artifactId, the segment's version and groupId, and the url. So a malformed incremental pin is rejected whether or not a url follows it. |
| TokenGrammar.ParseIncrementalsWithUrl | plugin-management-library/src/test/java/io/jenkins/tools/pluginmanager/util/PluginListParserTest.java:62 | `artifactId:incrementals;groupId;version:url` parses to that groupId, version and url. |
| TokenGrammar.ParseBare | plugin-management-library/src/test/java/io/jenkins/tools/pluginmanager/util/PluginListParserTest.java:57 | `artifactId` alone parses to (artifactId, latest, no url, no groupId). |
| TokenGrammar.ParseWithVersion | plugin-management-library/src/test/java/io/jenkins/tools/pluginmanager/util/PluginListParserTest.java:57-64 | `artifactId:version` parses to that version (latest when empty), with no url and no groupId. |
| TokenGrammar.ParseWithUrl | plugin-management-library/src/test/java/io/jenkins/tools/pluginmanager/util/PluginListParserTest.java:60-66 | `artifactId:version:url` parses to that version (latest when empty) and the url after the second ':'. There is no groupId. |
| TokenGrammar.ParseIncrementals | plugin-management-library/src/test/java/io/jenkins/tools/pluginmanager/util/PluginListParserTest.java:62 | `artifactId:incrementals;groupId;version` parses to the groupId and version after the marker, with no url. |
| TokenGrammar.ParseTrailingSeparator | plugin-management-library/src/test/java/io/jenkins/tools/pluginmanager/util/PluginListParserTest.java:67 | `artifactId:` parses exactly as `artifactId` does, to version latest, no url and no groupId. |
| TokenGrammar.ParseIncrementalsMissingPart | plugin-management-library/src/test/java/io/jenkins/tools/pluginmanager/util/PluginListParserTest.java:62 | An incremental segment that lacks its version is rejected, never completed by guessing. |
| TokenGrammar.ParseRender | plugin-management-library/src/test/java/io/jenkins/tools/pluginmanager/util/PluginListParserTest.java:57-67 | Round trip: parsing the token written for any renderable descriptor gives that descriptor back. |
| TokenGrammar.ParsedRenderable | plugin-management-library/src/test/java/io/jenkins/tools/pluginmanager/util/PluginListParserTest.java:57-67 | Every descriptor a token parses to is renderable, so the grammar covers its own output. |
| TokenGrammar.ReparseRendered | plugin-management-library/src/test/java/io/jenkins/tools/pluginmanager/util/PluginListParserTest.java:57-67 | Idempotence: rendering a parsed descriptor and parsing it again gives the same descriptor. |
| Descriptor.EffectiveVersion | plugin-management-library/src/test/java/io/jenkins/tools/pluginmanager/util/PluginListParserTest.java:34-49 | The version a descriptor records is never empty: the given version when there is one, otherwise latest. |
| Descriptor.NewPlugin | plugin-management-library/src/test/java/io/jenkins/tools/pluginmanager/util/PluginListParserTest.java:34-49 | The one constructor keeps artifactId, url and groupId, normalises the version, and gives a well-formed descriptor from a non-empty artifactId and a groupId that is absent or non-empty. |
| Canonical.DecodeCanonicalForm | plugin-management-library/src/test/java/io/jenkins/tools/pluginmanager/util/PluginListParserTest.java:34-49 | The canonical string of every descriptor decodes back to it. An absent url or groupId stays distinct from an empty one. |
| Canonical.CanonicalFormInjective | plugin-management-library/src/test/java/io/jenkins/tools/pluginmanager/util/PluginListParserTest.java:34-49 | Two descriptors have the same canonical string if and only if they are equal. |
| Ordering.LessEqTotal | plugin-management-library/src/test/java/io/jenkins/tools/pluginmanager/util/PluginListParserTest.java:51 | The string order used for sorting is total. Together with the reflexivity, antisymmetry and transitivity lemmas beside it, this makes it a linear order. |
| Ordering.Sort | plugin-management-library/src/test/java/io/jenkins/tools/pluginmanager/util/PluginListParserTest.java:51 | The result of sorting is sorted and is a permutation of the input. |
| Ordering.SortedUnique | plugin-management-library/src/test/java/io/jenkins/tools/pluginmanager/util/PluginListParserTest.java:76-78 | Two sorted lists with the same elements are equal. |
| Ordering.SortEqualIffSameMultiset | plugin-management-library/src/test/java/io/jenkins/tools/pluginmanager/util/PluginListParserTest.java:76-78 | Two lists sort to the same list if and only if they hold the same elements the same number of times. |
| Batch.ParseAll | plugin-management-library/src/test/java/io/jenkins/tools/pluginmanager/util/PluginListParserTest.java:69 | A batch parses if and only if every input parses. Then it gives each input's descriptor in input order. Otherwise the error is the one from the first input that fails. |
| Batch.ParsePluginsFromCliOption | plugin-management-library/src/test/java/io/jenkins/tools/pluginmanager/util/PluginListParserTest.java:80-82 | A null token array gives the empty list. Otherwise each token goes through the grammar in order: the array parses if and only if every token parses, the result holds each token's descriptor at the token's position, and a failure carries the error of the first token that fails. Every descriptor it returns is well-formed. |
| Batch.NonBlankLines | plugin-management-library/src/test/java/io/jenkins/tools/pluginmanager/util/PluginListParserTest.java:93 | The lines passed to the grammar are all non-blank and are drawn from the file, no line more often than it occurs there. Every non-blank line of the file is among them. |
| Batch.ParsePluginTxtFile | plugin-management-library/src/test/java/io/jenkins/tools/pluginmanager/util/PluginListParserTest.java:88-89 | A null file gives the empty list. Otherwise the file parses exactly as its non-blank lines given as command-line tokens: it parses if and only if every non-blank line parses, and the result holds each line's descriptor in file order. Every descriptor it returns is well-formed. |
| Batch.BlankLineSkipped | plugin-management-library/src/test/java/io/jenkins/tools/pluginmanager/util/PluginListParserTest.java:93 | Inserting a blank line anywhere in a text file does not change the result. |
| Batch.TxtFileLikeCliOption | plugin-management-library/src/test/java/io/jenkins/tools/pluginmanager/util/PluginListParserTest.java:93-101 | A file without blank lines parses exactly as the same strings given as command-line tokens. |
| Yaml.ScalarField | plugin-management-library/src/test/java/io/jenkins/tools/pluginmanager/util/PluginListParserTest.java:110-112 | A key gives None exactly when it is absent and Some(s) exactly when it holds the string s. It fails exactly when it holds a nested mapping. |
| Yaml.ParseSource | plugin-management-library/src/test/java/io/jenkins/tools/pluginmanager/util/PluginListParserTest.java:130-140 | A source parses if and only if its version, url and groupId keys are absent or hold strings, and a groupId key comes with a non-empty version. The descriptor then takes the version key's string (latest when absent or empty), the url key's string, and the groupId when non-empty. A source with a groupId, no version or an empty one, and a url that is absent or a string, fails with GroupIdWithoutVersion, whatever other keys it holds. |
| Yaml.ParseEntry | plugin-management-library/src/test/java/io/jenkins/tools/pluginmanager/util/PluginListParserTest.java:124-128 | An entry parses if and only if it has a non-empty artifactId string and its source is absent or an acceptable mapping. The result is the descriptor the entry describes key by key. An entry without an artifactId fails with MissingArtifactId. |
| Yaml.ParseEntryDescribes | plugin-management-library/src/test/java/io/jenkins/tools/pluginmanager/util/PluginListParserTest.java:110-121 | An entry parses to a descriptor if and only if it describes that descriptor, read key by key. This covers every way of writing an entry, such as a source with only a url or an explicit `version: latest`. |
| Yaml.ParsePluginYamlFile | plugin-management-library/src/test/java/io/jenkins/tools/pluginmanager/util/PluginListParserTest.java:107-108 | A null document gives the empty list. A document parses if and only if every entry parses, and then every descriptor is well-formed. |
| Yaml.ParseEntryOf | plugin-management-library/src/test/java/io/jenkins/tools/pluginmanager/util/PluginListParserTest.java:112-121 | Round trip: the entry EntryOf writes for any well-formed descriptor parses back to that descriptor. |
| Yaml.EntryOfDescribes | plugin-management-library/src/test/java/io/jenkins/tools/pluginmanager/util/PluginListParserTest.java:112-121 | The entry EntryOf writes describes its descriptor, key by key. |
| Yaml.ParseDocumentOf | plugin-management-library/src/test/java/io/jenkins/tools/pluginmanager/util/PluginListParserTest.java:112-121 | A document written entry by entry with EntryOf parses back to exactly those descriptors, in order. |
| Yaml.ParseDocumentDescribes | plugin-management-library/src/test/java/io/jenkins/tools/pluginmanager/util/PluginListParserTest.java:112-121 | A document parses to a list of descriptors if and only if it has one entry per descriptor and each entry describes the descriptor at its position. |
| Yaml.MissingArtifactIdRejected | plugin-management-library/src/test/java/io/jenkins/tools/pluginmanager/util/PluginListParserTest.java:124-128 | An entry with no artifactId, or an empty one, is rejected with MissingArtifactId. |
| Yaml.GroupIdNeedsVersion | plugin-management-library/src/test/java/io/jenkins/tools/pluginmanager/util/PluginListParserTest.java:130-140 | An entry whose source holds a groupId and no version, or an empty one, is rejected with GroupIdWithoutVersion, whatever else the source holds, as long as its url is absent or a string. |
| Yaml.GroupIdWithVersionAccepted | plugin-management-library/src/test/java/io/jenkins/tools/pluginmanager/util/PluginListParserTest.java:130-140 | The same entry with a non-empty groupId and a non-empty version is accepted, with that groupId and version and the source's url. |
| Yaml.BadEntryRejectsDocument | plugin-management-library/src/test/java/io/jenkins/tools/pluginmanager/util/PluginListParserTest.java:124-140 | One rejected entry anywhere rejects the whole document. |
| Channels.CanonicalForms | plugin-management-library/src/test/java/io/jenkins/tools/pluginmanager/util/PluginListParserTest.java:71-74 | The list of strings the tests build holds, at each position, the canonical form of the descriptor there. |
| Channels.SortedCanonicalForms | plugin-management-library/src/test/java/io/jenkins/tools/pluginmanager/util/PluginListParserTest.java:76 | The compared list is sorted and is a permutation of the canonical forms. |
| Channels.CanonicalFormsCount | plugin-management-library/src/test/java/io/jenkins/tools/pluginmanager/util/PluginListParserTest.java:71-76 | A string occurs among the canonical forms as often as the descriptor it encodes occurs in the batch. |
| Channels.SameSortedFormsIffSameDescriptors | plugin-management-library/src/test/java/io/jenkins/tools/pluginmanager/util/PluginListParserTest.java:76-78 | Two batches give equal sorted canonical lists if and only if they hold the same descriptors the same number of times. |
| Channels.ParseAllPointwise | plugin-management-library/src/test/java/io/jenkins/tools/pluginmanager/util/PluginListParserTest.java:69 | A batch whose every input parses to the descriptor at the same position parses to exactly that list. |
| Channels.ParseAllPermuted | plugin-management-library/src/test/java/io/jenkins/tools/pluginmanager/util/PluginListParserTest.java:93-101 | Reordering a parsing batch's inputs keeps it parsing and keeps the multiset of descriptors. |
| Channels.TxtFileSortsLikeCliOption | plugin-management-library/src/test/java/io/jenkins/tools/pluginmanager/util/PluginListParserTest.java:93-101 | Take a text file whose non-blank lines rearrange a token array that parses. The file parses, and gives the same sorted canonical list as the array. |
| ExistenceProbe.FileExists | plugin-management-library/src/test/java/io/jenkins/tools/pluginmanager/util/PluginListParserTest.java:142-153 | A null file does not exist. Otherwise the answer is the filesystem probe's. |
| ParserTestCases.ParseGit | plugin-management-library/src/test/java/io/jenkins/tools/pluginmanager/util/PluginListParserTest.java:57 | `git` parses to (git, latest, no url, no groupId). |
| ParserTestCases.ParseJobImport | plugin-management-library/src/test/java/io/jenkins/tools/pluginmanager/util/PluginListParserTest.java:57 | `job-import-plugin:2.1` parses to version 2.1. |
| ParserTestCases.ParseDocker | plugin-management-library/src/test/java/io/jenkins/tools/pluginmanager/util/PluginListParserTest.java:58 | `docker:latest` parses to version latest. |
| ParserTestCases.ParseCloudbees | plugin-management-library/src/test/java/io/jenkins/tools/pluginmanager/util/PluginListParserTest.java:59 | `cloudbees-bitbucket-branch-source:2.4.4` parses to version 2.4.4. |
| ParserTestCases.ParseScriptSecurity | plugin-management-library/src/test/java/io/jenkins/tools/pluginmanager/util/PluginListParserTest.java:60-61 | An empty version with a url parses to latest and that url. |
| ParserTestCases.ParseWorkflowStepApi | plugin-management-library/src/test/java/io/jenkins/tools/pluginmanager/util/PluginListParserTest.java:62 | The incremental token parses to groupId org.jenkins-ci.plugins.workflow and version 2.19-rc289.d09828a05a74, with no url. |
| ParserTestCases.ParseMatrixProject | plugin-management-library/src/test/java/io/jenkins/tools/pluginmanager/util/PluginListParserTest.java:63 | `matrix-project:latest` parses to version latest. |
| ParserTestCases.ParseJunit | plugin-management-library/src/test/java/io/jenkins/tools/pluginmanager/util/PluginListParserTest.java:64 | `junit:experimental` parses to version experimental. |
| ParserTestCases.ParseCredentials | plugin-management-library/src/test/java/io/jenkins/tools/pluginmanager/util/PluginListParserTest.java:65 | The three-segment token parses to version 2.2.0 and its url. |
| ParserTestCases.ParseGoogleApiClient | plugin-management-library/src/test/java/io/jenkins/tools/pluginmanager/util/PluginListParserTest.java:66 | An empty version with an https url parses to latest and that url. |
| ParserTestCases.ParseBlueocean | plugin-management-library/src/test/java/io/jenkins/tools/pluginmanager/util/PluginListParserTest.java:67 | `blueocean:` parses to (blueocean, latest, no url, no groupId). |
| ParserTestCases.CliTokenParses | plugin-management-library/src/test/java/io/jenkins/tools/pluginmanager/util/PluginListParserTest.java:57-67 | Each token of the command-line test parses to the descriptor at the same position. |
| ParserTestCases.CliOptionParses | plugin-management-library/src/test/java/io/jenkins/tools/pluginmanager/util/PluginListParserTest.java:69 | The command-line test's array parses to its eleven descriptors, in order. |
| ParserTestCases.CliOptionTest | plugin-management-library/src/test/java/io/jenkins/tools/pluginmanager/util/PluginListParserTest.java:69-78 | The command-line test's array gives the same sorted canonical list as the setup's eleven descriptors. |
| ParserTestCases.TxtFileTest | plugin-management-library/src/test/java/io/jenkins/tools/pluginmanager/util/PluginListParserTest.java:91-101 | Any text file whose non-blank lines are the test's tokens, in any order, parses to the setup's sorted canonical list. |
| ParserTestCases.YamlFileTest | plugin-management-library/src/test/java/io/jenkins/tools/pluginmanager/util/PluginListParserTest.java:110-121 | Any document whose entries describe a rearrangement of the setup's descriptors parses to that rearrangement, whichever way each entry is written. Its sorted canonical list is the setup's. |
| ParserTestCases.OtherEntryWritings | plugin-management-library/src/test/java/io/jenkins/tools/pluginmanager/util/PluginListParserTest.java:110-121 | A source holding only a url, and a source with an explicit `version: latest`, describe the setup's script-security and git descriptors. |
| ParserTestCases.ChannelsAgree | plugin-management-library/src/test/java/io/jenkins/tools/pluginmanager/util/PluginListParserTest.java:76-78 | For the test inputs, the three entry points all succeed and give the same sorted canonical list. The text-file input is any file whose non-blank lines rearrange the test's tokens. The YAML input is any document whose entries describe a rearrangement of the setup's descriptors. |
| ParserTestCases.TxtAgreesWithCli | plugin-management-library/src/test/java/io/jenkins/tools/pluginmanager/util/PluginListParserTest.java:100-101 | The text-file test's input gives the command-line test's sorted canonical list. |
| ParserTestCases.YamlAgreesWithCli | plugin-management-library/src/test/java/io/jenkins/tools/pluginmanager/util/PluginListParserTest.java:120-121 | The YAML test's input gives the command-line test's sorted canonical list. |
| ParserTestCases.BadFormatYamlTests | plugin-management-library/src/test/java/io/jenkins/tools/pluginmanager/util/PluginListParserTest.java:124-140 | After entries that parse, any entry without an artifactId rejects the document with MissingArtifactId. Any entry whose source holds a groupId with no version or an empty one, and a url that is absent or a string, rejects it with GroupIdWithoutVersion. |
| ParserTestCases.FirstFailureAborts | plugin-management-library/src/test/java/io/jenkins/tools/pluginmanager/util/PluginListParserTest.java:124-140 | After entries that parse, the first failing entry's error is the document's error. |
| ParserTestCases.NullInputsAndFileExists | plugin-management-library/src/test/java/io/jenkins/tools/pluginmanager/util/PluginListParserTest.java:142-153 | Null inputs to all three entry points give empty lists. A null file does not exist. A present file exists or not as the probe says, which covers the real and the mocked filesystem. |

## Left out

- The source of `PluginListParser` and `Plugin` is not available here, so the model follows their unit tests, which fix the behaviour case by case. Where they say nothing, the model makes its own choices:
  - An empty artifactId is an error, as a missing one is in YAML, so every returned descriptor names a plugin.
  - An incremental segment needs exactly a non-empty groupId and a non-empty version after the marker. A malformed pin is rejected rather than guessed at.
  - In YAML, a groupId key of any value, even empty, needs a non-empty version. An empty groupId that does come with a version is recorded as no groupId, so that a descriptor never carries an empty groupId.
- File reading, resource lookup and UTF-8 decoding are I/O. A text file is given as its lines. A YAML file is given as the tree a YAML reader builds: entries of string keys mapped to strings or nested mappings.
- The YAML library is a foreign dependency and is not modelled. Unknown keys in an entry are ignored.
- ExistenceProbe.FileExists: `Files.exists` and its static mocking with PowerMock are replaced by a probe passed as a parameter, because the answer depends on the filesystem.
- Canonical.CanonicalFormInjective: the exact text of `Plugin.toString` is unknown, so the model uses its own escaped encoding of the four fields. That encoding is proved injective, and that is all the tests rely on. A `toString` built by string concatenation could render a null url and the url "null" alike. Whether the real one does is not known here.
- The contents of `plugins.txt`, `plugins.yaml` and `badformat1.yaml` to `badformat3.yaml` are not shown.
  - ParserTestCases.TxtFileTest states its result for every file whose non-blank lines rearrange the expected tokens.
  - ParserTestCases.YamlFileTest states its result for every document whose entries describe a rearrangement of the expected descriptors.
  - ParserTestCases.BadFormatYamlTests states its result for every document with a rejected entry after valid entries.
- Ordering.LessEq compares characters by code point. Java's `String.compareTo` compares UTF-16 code units, so the two orders differ between characters above U+FFFF and those from U+E000 to U+FFFF. The equal-sorted-list results use only that the order is linear, which holds for both.
- Batch.NonBlankLines: comment lines and whitespace trimming are not modelled. A line is skipped only when it is blank, meaning all its characters are at most U+0020.
- The messages carried by `PluginInputException` are reduced to the `Malformed` error variants.
- Plugin downloading, dependency resolution, and turning `latest` into a concrete version happen outside the parser.
