/** The plugin descriptor: one requested plugin, as every parser entry point builds it. */
module Descriptor {
  import opened Wrappers

  /** The version a descriptor carries when the input names none. */
  const Latest: string := "latest"

  /** One requested plugin. `url` and `groupId` are absent unless the input gives them;
      absence (None) and an explicitly empty value (Some("")) are different descriptors. */
  datatype Plugin = Plugin(artifactId: string, version: string, url: Option<string>, groupId: Option<string>)

  /** Why an input was rejected (the Java parser raises PluginInputException). */
  datatype Malformed =
    | EmptyArtifactId(token: string)          // a token or line with nothing before its first ':'
    | BadIncrementals(token: string)          // 'incrementals' not followed by exactly groupId;version
    | MissingArtifactId                       // a document entry without a usable artifactId
    | NotAScalar(key: string)                 // a document key whose value is a mapping, not a string
    | SourceNotAMapping(artifactId: string)   // a document entry whose 'source' is a string
    | GroupIdWithoutVersion(artifactId: string) // a document entry pinning a groupId but no version

  /** What every parser guarantees of the descriptors it returns: an artifactId, a
      version (possibly the default), and a groupId that is never empty. */
  predicate WellFormed(p: Plugin) {
    && p.artifactId != ""
    && p.version != ""
    && (p.groupId.Some? ==> p.groupId.value != "")
  }

  /** The version a descriptor records for the version an input gave: an empty one
      means "not given" and becomes Latest. */
  function EffectiveVersion(given: string): (v: string)
    ensures v != ""
    ensures given != "" ==> v == given
    ensures given == "" ==> v == Latest
  {
    if given == "" then Latest else given
  }

  /** The one constructor every parser goes through; it normalises an empty version. */
  function NewPlugin(artifactId: string, version: string, url: Option<string>, groupId: Option<string>): (p: Plugin)
    ensures p.artifactId == artifactId && p.url == url && p.groupId == groupId
    ensures p.version == EffectiveVersion(version)
    ensures artifactId != "" && (groupId.Some? ==> groupId.value != "") ==> WellFormed(p)
  {
    Plugin(artifactId, EffectiveVersion(version), url, groupId)
  }
}
