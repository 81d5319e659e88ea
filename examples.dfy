/** The cases of PluginListParserTest, stated over the model: what each command-line
    token parses to, and that the three entry points agree on the same plugin list. */
module ParserTestCases {
  import opened Wrappers
  import opened Descriptor
  import opened TokenGrammar
  import opened Batch
  import opened Yaml
  import opened Channels
  import opened ExistenceProbe

  const ScriptSecurityUrl: string := "http://ftp-chi.osuosl.org/pub/jenkins/plugins/script-security/1.56/script-security.hpi"
  const CredentialsUrl: string := "http://ftp-chi.osuosl.org/pub/jenkins/plugins/credentials/2.2.0/credentials.hpi"
  const GoogleApiUrl: string := "https://updates.jenkins.io/latest/google-api-client-plugin.hpi"
  const WorkflowGroupId: string := "org.jenkins-ci.plugins.workflow"
  const WorkflowVersion: string := "2.19-rc289.d09828a05a74"

  const GitToken: string := "git"
  const JobImportToken: string := "job-import-plugin:2.1"
  const DockerToken: string := "docker:latest"
  const CloudbeesToken: string := "cloudbees-bitbucket-branch-source:2.4.4"
  const ScriptSecurityToken: string := "script-security::" + ScriptSecurityUrl
  const WorkflowStepApiToken: string := "workflow-step-api:incrementals;" + WorkflowGroupId + ";" + WorkflowVersion
  const MatrixProjectToken: string := "matrix-project:latest"
  const JunitToken: string := "junit:experimental"
  const CredentialsToken: string := "credentials:2.2.0:" + CredentialsUrl
  const GoogleApiClientToken: string := "google-api-client-plugin::" + GoogleApiUrl
  const BlueoceanToken: string := "blueocean:"

  const GitPlugin: Plugin := Plugin("git", Latest, None, None)
  const JobImportPlugin: Plugin := Plugin("job-import-plugin", "2.1", None, None)
  const DockerPlugin: Plugin := Plugin("docker", Latest, None, None)
  const CloudbeesPlugin: Plugin := Plugin("cloudbees-bitbucket-branch-source", "2.4.4", None, None)
  const ScriptSecurityPlugin: Plugin := Plugin("script-security", Latest, Some(ScriptSecurityUrl), None)
  const WorkflowStepApiPlugin: Plugin := Plugin("workflow-step-api", WorkflowVersion, None, Some(WorkflowGroupId))
  const MatrixProjectPlugin: Plugin := Plugin("matrix-project", Latest, None, None)
  const JunitPlugin: Plugin := Plugin("junit", "experimental", None, None)
  const CredentialsPlugin: Plugin := Plugin("credentials", "2.2.0", Some(CredentialsUrl), None)
  const GoogleApiClientPlugin: Plugin := Plugin("google-api-client-plugin", Latest, Some(GoogleApiUrl), None)
  const BlueoceanPlugin: Plugin := Plugin("blueocean", Latest, None, None)

  /** The descriptors the tests expect, in the order the setup lists them. */
  const ExpectedPlugins: seq<Plugin> := [
    GitPlugin,
    JobImportPlugin,
    DockerPlugin,
    CloudbeesPlugin,
    ScriptSecurityPlugin,
    WorkflowStepApiPlugin,
    MatrixProjectPlugin,
    JunitPlugin,
    CredentialsPlugin,
    BlueoceanPlugin,
    GoogleApiClientPlugin
  ]

  /** The command-line tokens of the CLI test. */
  const CliTokens: seq<string> := [
    GitToken,
    JobImportToken,
    DockerToken,
    CloudbeesToken,
    ScriptSecurityToken,
    WorkflowStepApiToken,
    MatrixProjectToken,
    JunitToken,
    CredentialsToken,
    GoogleApiClientToken,
    BlueoceanToken
  ]

  /** The descriptors of CliTokens, token by token. */
  const CliPlugins: seq<Plugin> := [
    GitPlugin,
    JobImportPlugin,
    DockerPlugin,
    CloudbeesPlugin,
    ScriptSecurityPlugin,
    WorkflowStepApiPlugin,
    MatrixProjectPlugin,
    JunitPlugin,
    CredentialsPlugin,
    GoogleApiClientPlugin,
    BlueoceanPlugin
  ]

  // One lemma per command-line token: the first states how the token is made of its
  // pieces and what the pieces do not contain, the second applies the grammar form.
  // Keeping the two apart keeps each proof small.

  lemma PlainForm(a: string, v: string)
    requires a != [] && FieldSeparator !in a
    requires IncrementalsSeparator !in v && FieldSeparator !in v && v != IncrementalsMarker
    ensures ParseToken(a + [FieldSeparator] + v) == Success(Plugin(a, EffectiveVersion(v), None, None))
  {
    PlainVersion(v);
    ParseWithVersion(a, v);
  }

  lemma UrlForm(a: string, v: string, u: string)
    requires a != [] && FieldSeparator !in a
    requires IncrementalsSeparator !in v && FieldSeparator !in v && v != IncrementalsMarker
    ensures ParseToken(a + [FieldSeparator] + v + [FieldSeparator] + u) == Success(Plugin(a, EffectiveVersion(v), Some(u), None))
  {
    PlainVersion(v);
    ParseWithUrl(a, v, u);
  }

  lemma GitPieces()
    ensures "git" != [] && FieldSeparator !in "git"
    ensures GitToken == "git"
  {
  }

  lemma ParseGit()
    ensures ParseToken(GitToken) == Success(GitPlugin)
  {
    GitPieces();
    ParseBare("git");
  }

  lemma JobImportPieces()
    ensures "job-import-plugin" != [] && FieldSeparator !in "job-import-plugin"
    ensures IncrementalsSeparator !in "2.1" && FieldSeparator !in "2.1" && "2.1" != IncrementalsMarker
    ensures JobImportToken == "job-import-plugin" + [FieldSeparator] + "2.1"
  {
  }

  lemma ParseJobImport()
    ensures ParseToken(JobImportToken) == Success(JobImportPlugin)
  {
    JobImportPieces();
    PlainForm("job-import-plugin", "2.1");
  }

  lemma DockerPieces()
    ensures "docker" != [] && FieldSeparator !in "docker"
    ensures IncrementalsSeparator !in "latest" && FieldSeparator !in "latest" && "latest" != IncrementalsMarker
    ensures DockerToken == "docker" + [FieldSeparator] + "latest"
  {
  }

  lemma ParseDocker()
    ensures ParseToken(DockerToken) == Success(DockerPlugin)
  {
    DockerPieces();
    PlainForm("docker", "latest");
  }

  lemma CloudbeesPieces()
    ensures "cloudbees-bitbucket-branch-source" != [] && FieldSeparator !in "cloudbees-bitbucket-branch-source"
    ensures IncrementalsSeparator !in "2.4.4" && FieldSeparator !in "2.4.4" && "2.4.4" != IncrementalsMarker
    ensures CloudbeesToken == "cloudbees-bitbucket-branch-source" + [FieldSeparator] + "2.4.4"
  {
  }

  lemma ParseCloudbees()
    ensures ParseToken(CloudbeesToken) == Success(CloudbeesPlugin)
  {
    CloudbeesPieces();
    PlainForm("cloudbees-bitbucket-branch-source", "2.4.4");
  }

  lemma ScriptSecurityPieces()
    ensures "script-security" != [] && FieldSeparator !in "script-security"
    ensures IncrementalsSeparator !in "" && FieldSeparator !in "" && "" != IncrementalsMarker
    ensures ScriptSecurityToken == "script-security" + [FieldSeparator] + "" + [FieldSeparator] + ScriptSecurityUrl
  {
  }

  lemma ParseScriptSecurity()
    ensures ParseToken(ScriptSecurityToken) == Success(ScriptSecurityPlugin)
  {
    ScriptSecurityPieces();
    UrlForm("script-security", "", ScriptSecurityUrl);
  }

  lemma WorkflowCoordinatesPlain()
    ensures WorkflowGroupId != [] && FieldSeparator !in WorkflowGroupId && IncrementalsSeparator !in WorkflowGroupId
    ensures WorkflowVersion != [] && FieldSeparator !in WorkflowVersion && IncrementalsSeparator !in WorkflowVersion
  {
  }

  lemma WorkflowStepApiPieces()
    ensures "workflow-step-api" != [] && FieldSeparator !in "workflow-step-api"
    ensures WorkflowStepApiToken == "workflow-step-api" + [FieldSeparator] + IncrementalsMarker + [IncrementalsSeparator] + WorkflowGroupId + [IncrementalsSeparator] + WorkflowVersion
  {
    WorkflowStepApiPrefix();
  }

  lemma WorkflowStepApiPrefix()
    ensures "workflow-step-api:incrementals;" == "workflow-step-api" + [FieldSeparator] + IncrementalsMarker + [IncrementalsSeparator]
  {
  }

  lemma ParseWorkflowStepApi()
    ensures ParseToken(WorkflowStepApiToken) == Success(WorkflowStepApiPlugin)
  {
    WorkflowStepApiPieces();
    WorkflowCoordinatesPlain();
    ParseIncrementals("workflow-step-api", WorkflowGroupId, WorkflowVersion);
  }

  lemma MatrixProjectPieces()
    ensures "matrix-project" != [] && FieldSeparator !in "matrix-project"
    ensures IncrementalsSeparator !in "latest" && FieldSeparator !in "latest" && "latest" != IncrementalsMarker
    ensures MatrixProjectToken == "matrix-project" + [FieldSeparator] + "latest"
  {
  }

  lemma ParseMatrixProject()
    ensures ParseToken(MatrixProjectToken) == Success(MatrixProjectPlugin)
  {
    MatrixProjectPieces();
    PlainForm("matrix-project", "latest");
  }

  lemma JunitPieces()
    ensures "junit" != [] && FieldSeparator !in "junit"
    ensures IncrementalsSeparator !in "experimental" && FieldSeparator !in "experimental" && "experimental" != IncrementalsMarker
    ensures JunitToken == "junit" + [FieldSeparator] + "experimental"
  {
  }

  lemma ParseJunit()
    ensures ParseToken(JunitToken) == Success(JunitPlugin)
  {
    JunitPieces();
    PlainForm("junit", "experimental");
  }

  lemma CredentialsPieces()
    ensures "credentials" != [] && FieldSeparator !in "credentials"
    ensures IncrementalsSeparator !in "2.2.0" && FieldSeparator !in "2.2.0" && "2.2.0" != IncrementalsMarker
    ensures CredentialsToken == "credentials" + [FieldSeparator] + "2.2.0" + [FieldSeparator] + CredentialsUrl
  {
  }

  lemma ParseCredentials()
    ensures ParseToken(CredentialsToken) == Success(CredentialsPlugin)
  {
    CredentialsPieces();
    UrlForm("credentials", "2.2.0", CredentialsUrl);
  }

  lemma GoogleApiClientPieces()
    ensures "google-api-client-plugin" != [] && FieldSeparator !in "google-api-client-plugin"
    ensures IncrementalsSeparator !in "" && FieldSeparator !in "" && "" != IncrementalsMarker
    ensures GoogleApiClientToken == "google-api-client-plugin" + [FieldSeparator] + "" + [FieldSeparator] + GoogleApiUrl
  {
  }

  lemma ParseGoogleApiClient()
    ensures ParseToken(GoogleApiClientToken) == Success(GoogleApiClientPlugin)
  {
    GoogleApiClientPieces();
    UrlForm("google-api-client-plugin", "", GoogleApiUrl);
  }

  lemma BlueoceanPieces()
    ensures "blueocean" != [] && FieldSeparator !in "blueocean"
    ensures BlueoceanToken == "blueocean" + [FieldSeparator]
  {
  }

  lemma ParseBlueocean()
    ensures ParseToken(BlueoceanToken) == Success(BlueoceanPlugin)
  {
    BlueoceanPieces();
    ParseTrailingSeparator("blueocean");
  }

  /** Position of each token in the CLI list. */
  lemma CliTokenEntries()
    ensures CliTokens[0] == GitToken
    ensures CliTokens[1] == JobImportToken
    ensures CliTokens[2] == DockerToken
    ensures CliTokens[3] == CloudbeesToken
    ensures CliTokens[4] == ScriptSecurityToken
    ensures CliTokens[5] == WorkflowStepApiToken
    ensures CliTokens[6] == MatrixProjectToken
    ensures CliTokens[7] == JunitToken
    ensures CliTokens[8] == CredentialsToken
    ensures CliTokens[9] == GoogleApiClientToken
    ensures CliTokens[10] == BlueoceanToken
  {
  }

  /** Position of each descriptor in the CLI-ordered list. */
  lemma CliPluginEntries()
    ensures CliPlugins[0] == GitPlugin
    ensures CliPlugins[1] == JobImportPlugin
    ensures CliPlugins[2] == DockerPlugin
    ensures CliPlugins[3] == CloudbeesPlugin
    ensures CliPlugins[4] == ScriptSecurityPlugin
    ensures CliPlugins[5] == WorkflowStepApiPlugin
    ensures CliPlugins[6] == MatrixProjectPlugin
    ensures CliPlugins[7] == JunitPlugin
    ensures CliPlugins[8] == CredentialsPlugin
    ensures CliPlugins[9] == GoogleApiClientPlugin
    ensures CliPlugins[10] == BlueoceanPlugin
  {
  }

  /** Each token of the CLI test parses to the descriptor at the same index. */
  lemma CliToken0()
    ensures ParseToken(CliTokens[0]) == Success(CliPlugins[0])
  {
    CliTokenEntries();
    CliPluginEntries();
    ParseGit();
  }

  lemma CliToken1()
    ensures ParseToken(CliTokens[1]) == Success(CliPlugins[1])
  {
    CliTokenEntries();
    CliPluginEntries();
    ParseJobImport();
  }

  lemma CliToken2()
    ensures ParseToken(CliTokens[2]) == Success(CliPlugins[2])
  {
    CliTokenEntries();
    CliPluginEntries();
    ParseDocker();
  }

  lemma CliToken3()
    ensures ParseToken(CliTokens[3]) == Success(CliPlugins[3])
  {
    CliTokenEntries();
    CliPluginEntries();
    ParseCloudbees();
  }

  lemma CliToken4()
    ensures ParseToken(CliTokens[4]) == Success(CliPlugins[4])
  {
    CliTokenEntries();
    CliPluginEntries();
    ParseScriptSecurity();
  }

  lemma CliToken5()
    ensures ParseToken(CliTokens[5]) == Success(CliPlugins[5])
  {
    CliTokenEntries();
    CliPluginEntries();
    ParseWorkflowStepApi();
  }

  lemma CliToken6()
    ensures ParseToken(CliTokens[6]) == Success(CliPlugins[6])
  {
    CliTokenEntries();
    CliPluginEntries();
    ParseMatrixProject();
  }

  lemma CliToken7()
    ensures ParseToken(CliTokens[7]) == Success(CliPlugins[7])
  {
    CliTokenEntries();
    CliPluginEntries();
    ParseJunit();
  }

  lemma CliToken8()
    ensures ParseToken(CliTokens[8]) == Success(CliPlugins[8])
  {
    CliTokenEntries();
    CliPluginEntries();
    ParseCredentials();
  }

  lemma CliToken9()
    ensures ParseToken(CliTokens[9]) == Success(CliPlugins[9])
  {
    CliTokenEntries();
    CliPluginEntries();
    ParseGoogleApiClient();
  }

  lemma CliToken10()
    ensures ParseToken(CliTokens[10]) == Success(CliPlugins[10])
  {
    CliTokenEntries();
    CliPluginEntries();
    ParseBlueocean();
  }

  lemma CliTokenParses(i: nat)
    requires i < |CliTokens|
    ensures ParseToken(CliTokens[i]) == Success(CliPlugins[i])
  {
    if i == 0 {
      CliToken0();
    } else if i == 1 {
      CliToken1();
    } else if i == 2 {
      CliToken2();
    } else if i == 3 {
      CliToken3();
    } else if i == 4 {
      CliToken4();
    } else if i == 5 {
      CliToken5();
    } else if i == 6 {
      CliToken6();
    } else if i == 7 {
      CliToken7();
    } else if i == 8 {
      CliToken8();
    } else if i == 9 {
      CliToken9();
    } else {
      CliToken10();
    }
  }

  /** parsePluginsFromCliOptionTest, first half: the tokens parse to the descriptors. */
  lemma CliOptionParses()
    ensures ParsePluginsFromCliOption(Some(CliTokens)) == Success(CliPlugins)
  {
    forall i | 0 <= i < |CliTokens| ensures ParseToken(CliTokens[i]) == Success(CliPlugins[i]) {
      CliTokenParses(i);
    }
    ParseAllPointwise(CliTokens, CliPlugins, ParseToken);
  }

  /** parsePluginsFromCliOptionTest, second half: they sort to the setup's list. */
  lemma CliOptionTest()
    ensures ParsePluginsFromCliOption(Some(CliTokens)) == Success(CliPlugins)
    ensures SortedCanonicalForms(CliPlugins) == SortedCanonicalForms(ExpectedPlugins)
  {
    CliOptionParses();
    CliPluginsOrder();
    SwapLastTwo(ExpectedPlugins, CliPlugins);
    SameSortedFormsIffSameDescriptors(CliPlugins, ExpectedPlugins);
  }

  /** The CLI test lists the last two descriptors of the setup the other way round. */
  lemma CliPluginsOrder()
    ensures |ExpectedPlugins| == 11
    ensures CliPlugins == ExpectedPlugins[..9] + [ExpectedPlugins[10], ExpectedPlugins[9]]
  {
  }

  /** Exchanging the last two elements keeps the multiset. */
  lemma SwapLastTwo(s: seq<Plugin>, t: seq<Plugin>)
    requires |s| >= 2
    requires t == s[..|s| - 2] + [s[|s| - 1], s[|s| - 2]]
    ensures multiset(t) == multiset(s)
  {
    assert s == s[..|s| - 2] + [s[|s| - 2], s[|s| - 1]];
  }

  /** parsePluginTxtFileTest: a file whose non-blank lines are the CLI test's tokens,
      in any order, gives the same sorted canonical list. */
  lemma TxtFileTest(lines: seq<string>)
    requires multiset(NonBlankLines(lines)) == multiset(CliTokens)
    ensures ParsePluginTxtFile(Some(lines)).Success?
    ensures SortedCanonicalForms(ParsePluginTxtFile(Some(lines)).value) == SortedCanonicalForms(ExpectedPlugins)
  {
    CliOptionTest();
    TxtFileSortsLikeCliOption(lines, CliTokens);
  }

  /** parsePluginYamlFileTest: a document whose entries describe the setup's
      descriptors, in any order and each written in any way the format allows, gives
      the same sorted canonical list. */
  lemma YamlFileTest(entries: seq<Entry>, ps: seq<Plugin>)
    requires multiset(ps) == multiset(ExpectedPlugins)
    requires |entries| == |ps| && forall i :: 0 <= i < |ps| ==> EntryDescribes(entries[i], ps[i])
    ensures ParsePluginYamlFile(Some(entries)) == Success(ps)
    ensures SortedCanonicalForms(ps) == SortedCanonicalForms(ExpectedPlugins)
  {
    ParseDocumentDescribes(entries, ps);
    SameSortedFormsIffSameDescriptors(ps, ExpectedPlugins);
  }

  /** Two of the ways a document can write the setup's descriptors: a source holding
      only a url, and an explicit `version: latest`. */
  lemma OtherEntryWritings()
    ensures EntryDescribes(map[ArtifactIdKey := Scalar("script-security"), SourceKey := Mapping(map[UrlKey := Scalar(ScriptSecurityUrl)])], ScriptSecurityPlugin)
    ensures EntryDescribes(map[ArtifactIdKey := Scalar("git"), SourceKey := Mapping(map[VersionKey := Scalar(Latest)])], GitPlugin)
  {
    var url := map[UrlKey := Scalar(ScriptSecurityUrl)];
    assert TextAt(url, UrlKey) == Some(ScriptSecurityUrl);
    var version := map[VersionKey := Scalar(Latest)];
    assert TextAt(version, VersionKey) == Some(Latest);
  }

  /** The text-file test's input gives the command-line test's sorted list. */
  lemma TxtAgreesWithCli(lines: seq<string>)
    requires multiset(NonBlankLines(lines)) == multiset(CliTokens)
    ensures ParsePluginTxtFile(Some(lines)).Success?
    ensures SortedCanonicalForms(ParsePluginTxtFile(Some(lines)).value) == SortedCanonicalForms(CliPlugins)
  {
    CliOptionTest();
    TxtFileTest(lines);
  }

  /** The YAML test's input gives the command-line test's sorted list. */
  lemma YamlAgreesWithCli(entries: seq<Entry>, ps: seq<Plugin>)
    requires multiset(ps) == multiset(ExpectedPlugins)
    requires |entries| == |ps| && forall i :: 0 <= i < |ps| ==> EntryDescribes(entries[i], ps[i])
    ensures ParsePluginYamlFile(Some(entries)).Success?
    ensures SortedCanonicalForms(ParsePluginYamlFile(Some(entries)).value) == SortedCanonicalForms(CliPlugins)
  {
    CliOptionTest();
    YamlFileTest(entries, ps);
  }

  /** The three entry points agree: for the test's inputs they return the same sorted
      canonical list. */
  lemma ChannelsAgree(lines: seq<string>, entries: seq<Entry>, ps: seq<Plugin>)
    requires multiset(NonBlankLines(lines)) == multiset(CliTokens)
    requires multiset(ps) == multiset(ExpectedPlugins)
    requires |entries| == |ps| && forall i :: 0 <= i < |ps| ==> EntryDescribes(entries[i], ps[i])
    ensures
      var cli := ParsePluginsFromCliOption(Some(CliTokens));
      var txt := ParsePluginTxtFile(Some(lines));
      var yaml := ParsePluginYamlFile(Some(entries));
      && cli.Success? && txt.Success? && yaml.Success?
      && SortedCanonicalForms(cli.value) == SortedCanonicalForms(txt.value) == SortedCanonicalForms(yaml.value)
  {
    CliOptionParses();
    TxtAgreesWithCli(lines);
    YamlAgreesWithCli(entries, ps);
  }

  /** badFormatYamlNoArtifactIdTest, badFormatYamlGroupIdNoVersion(2): after entries
      that parse, an entry lacking an artifactId rejects the document, and so does an
      entry whose source holds a groupId without a version or with an empty one,
      whatever else that source holds. */
  lemma BadFormatYamlTests(before: seq<Entry>, after: seq<Entry>, noArtifactId: Entry, artifactId: string, source: map<string, Node>)
    requires forall i :: 0 <= i < |before| ==> ParseEntry(before[i]).Success?
    requires ArtifactIdKey !in noArtifactId
    requires artifactId != ""
    requires GroupIdKey in source && ScalarOrAbsent(source, GroupIdKey) && ScalarOrAbsent(source, UrlKey)
    requires VersionKey !in source || source[VersionKey] == Scalar("")
    ensures ParsePluginYamlFile(Some(before + [noArtifactId] + after)) == Failure(MissingArtifactId)
    ensures ParsePluginYamlFile(Some(before + [map[ArtifactIdKey := Scalar(artifactId), SourceKey := Mapping(source)]] + after))
         == Failure(GroupIdWithoutVersion(artifactId))
  {
    MissingArtifactIdRejected(noArtifactId);
    FirstFailureAborts(before, noArtifactId, after);
    GroupIdNeedsVersion(artifactId, source);
    FirstFailureAborts(before, map[ArtifactIdKey := Scalar(artifactId), SourceKey := Mapping(source)], after);
  }

  /** After entries that parse, a failing entry decides the document's error. */
  lemma FirstFailureAborts(before: seq<Entry>, bad: Entry, after: seq<Entry>)
    requires forall i :: 0 <= i < |before| ==> ParseEntry(before[i]).Success?
    requires ParseEntry(bad).Failure?
    ensures ParsePluginYamlFile(Some(before + [bad] + after)) == Failure(ParseEntry(bad).error)
  {
    var entries := before + [bad] + after;
    assert entries[|before|] == bad;
    assert forall i :: 0 <= i < |before| ==> entries[i] == before[i];
    var r := ParseAll(entries, ParseEntry);
    assert r.Failure?;
    var k :| 0 <= k < |entries| && ParseEntry(entries[k]) == Failure(r.error)
      && forall j :: 0 <= j < k ==> ParseEntry(entries[j]).Success?;
    assert k == |before|;
  }

  /** The null cases of every test and fileExistsTest: no input is no plugins, and a
      null file does not exist; otherwise the probe answers. */
  lemma NullInputsAndFileExists<F>(file: F)
    ensures ParsePluginsFromCliOption(None) == Success([])
    ensures ParsePluginTxtFile(None) == Success([])
    ensures ParsePluginYamlFile(None) == Success([])
    ensures !FileExists(None, (f: F) => true)
    ensures FileExists(Some(file), (f: F) => true)
    ensures !FileExists(Some(file), (f: F) => false)
  {
  }
}
