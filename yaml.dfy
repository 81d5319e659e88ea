/** parsePluginYamlFile: the structured-document entry point. The document is given as
    the tree a YAML reader builds: a list of entries, each a mapping from keys to strings
    or to nested mappings. */
module Yaml {
  import opened Wrappers
  import opened Descriptor
  import opened Batch

  /** A value in the document tree. */
  datatype Node = Scalar(text: string) | Mapping(fields: map<string, Node>)

  /** One entry of the plugin list. */
  type Entry = map<string, Node>

  const ArtifactIdKey: string := "artifactId"
  const SourceKey: string := "source"
  const VersionKey: string := "version"
  const UrlKey: string := "url"
  const GroupIdKey: string := "groupId"

  /** The string under `key`, None when the key is absent; a nested mapping there is
      rejected. */
  function ScalarField(fields: map<string, Node>, key: string): (r: Result<Option<string>, Malformed>)
    ensures r.Failure? <==> key in fields && fields[key].Mapping?
    ensures r.Failure? ==> r.error == NotAScalar(key)
    ensures r == Success(None) <==> key !in fields
    ensures forall s :: r == Success(Some(s)) <==> key in fields && fields[key] == Scalar(s)
  {
    if key !in fields then Success(None)
    else match fields[key]
      case Scalar(s) => Success(Some(s))
      case Mapping(_) => Failure(NotAScalar(key))
  }

  // Reading a mapping by its keys, for stating what a source or an entry means.

  /** `key` is absent or holds a string. */
  predicate ScalarOrAbsent(fields: map<string, Node>, key: string) {
    key !in fields || fields[key].Scalar?
  }

  /** The string `key` holds, if it holds one. */
  function TextAt(fields: map<string, Node>, key: string): (r: Option<string>)
    ensures r.Some? <==> key in fields && fields[key].Scalar?
    ensures r.Some? ==> fields[key] == Scalar(r.value)
  {
    if key in fields && fields[key].Scalar? then Some(fields[key].text) else None
  }

  /** A given string, or the empty string when none is given. */
  function OrEmpty(o: Option<string>): (s: string)
    ensures o.Some? ==> s == o.value
    ensures o.None? ==> s == ""
  {
    if o.Some? then o.value else ""
  }

  /** A given non-empty string; an empty one counts as not given. */
  function NonEmpty(o: Option<string>): (r: Option<string>)
    ensures r.Some? <==> o.Some? && o.value != ""
    ensures r.Some? ==> r == o
  {
    if o.Some? && o.value != "" then o else None
  }

  /** A source the parser accepts: every key it reads holds a string, and a groupId
      key comes with a non-empty version. */
  predicate SourceAcceptable(source: map<string, Node>) {
    && ScalarOrAbsent(source, VersionKey)
    && ScalarOrAbsent(source, UrlKey)
    && ScalarOrAbsent(source, GroupIdKey)
    && (GroupIdKey in source ==> OrEmpty(TextAt(source, VersionKey)) != "")
  }

  /** The descriptor `source` describes for `artifactId`, read key by key: the version
      (latest when absent or empty), the url, and the groupId when it is non-empty. */
  predicate SourceDescribes(source: map<string, Node>, p: Plugin) {
    && SourceAcceptable(source)
    && p.version == EffectiveVersion(OrEmpty(TextAt(source, VersionKey)))
    && p.url == TextAt(source, UrlKey)
    && p.groupId == NonEmpty(TextAt(source, GroupIdKey))
  }

  /** The descriptor an entry describes: a non-empty artifactId, and either no source
      (latest, no url, no groupId) or a source mapping that describes the rest. */
  predicate EntryDescribes(entry: Entry, p: Plugin) {
    && ArtifactIdKey in entry && entry[ArtifactIdKey] == Scalar(p.artifactId) && p.artifactId != ""
    && (SourceKey !in entry ==> p.version == Latest && p.url.None? && p.groupId.None?)
    && (SourceKey in entry ==> entry[SourceKey].Mapping? && SourceDescribes(entry[SourceKey].fields, p))
  }

  /** The descriptor a `source` mapping gives for `artifactId`. Every key is optional,
      but a groupId key needs a non-empty version. */
  function ParseSource(artifactId: string, source: map<string, Node>): (r: Result<Plugin, Malformed>)
    requires artifactId != ""
    ensures r.Success? <==> SourceAcceptable(source)
    ensures r.Success? ==> r.value.artifactId == artifactId && SourceDescribes(source, r.value)
    ensures r.Success? ==> WellFormed(r.value)
    ensures r.Success? && r.value.groupId.Some? ==>
      VersionKey in source && source[VersionKey] == Scalar(r.value.version)
    ensures r.Failure? ==>
      r.error in {NotAScalar(VersionKey), NotAScalar(UrlKey), NotAScalar(GroupIdKey), GroupIdWithoutVersion(artifactId)}
    ensures
      && GroupIdKey in source && ScalarOrAbsent(source, GroupIdKey) && ScalarOrAbsent(source, UrlKey)
      && (VersionKey !in source || source[VersionKey] == Scalar(""))
      ==> r == Failure(GroupIdWithoutVersion(artifactId))
  {
    match ScalarField(source, VersionKey)
    case Failure(e) => Failure(e)
    case Success(version) =>
      match ScalarField(source, UrlKey)
      case Failure(e) => Failure(e)
      case Success(url) =>
        match ScalarField(source, GroupIdKey)
        case Failure(e) => Failure(e)
        case Success(groupId) =>
          var given := OrEmpty(version);
          if groupId.Some? && given == "" then Failure(GroupIdWithoutVersion(artifactId))
          else Success(NewPlugin(artifactId, given, url, NonEmpty(groupId)))
  }

  /** The entries the parser accepts: a non-empty artifactId string, and a source that
      is absent or an acceptable mapping. */
  predicate EntryAcceptable(entry: Entry) {
    && ArtifactIdKey in entry && entry[ArtifactIdKey].Scalar? && entry[ArtifactIdKey].text != ""
    && (SourceKey in entry ==> entry[SourceKey].Mapping? && SourceAcceptable(entry[SourceKey].fields))
  }

  /** The descriptor one entry stands for: an artifactId is required; without a `source`
      the version is latest and there is no url and no groupId. */
  function ParseEntry(entry: Entry): (r: Result<Plugin, Malformed>)
    ensures r.Success? <==> EntryAcceptable(entry)
    ensures r.Success? ==> EntryDescribes(entry, r.value) && WellFormed(r.value)
    ensures ArtifactIdKey !in entry ==> r == Failure(MissingArtifactId)
  {
    match ScalarField(entry, ArtifactIdKey)
    case Failure(e) => Failure(e)
    case Success(None) => Failure(MissingArtifactId)
    case Success(Some(artifactId)) =>
      if artifactId == "" then Failure(MissingArtifactId)
      else if SourceKey !in entry then Success(NewPlugin(artifactId, Latest, None, None))
      else match entry[SourceKey]
        case Scalar(_) => Failure(SourceNotAMapping(artifactId))
        case Mapping(source) => ParseSource(artifactId, source)
  }

  /** An entry describes at most one descriptor. */
  lemma EntryDescribesOne(entry: Entry, p: Plugin, q: Plugin)
    requires EntryDescribes(entry, p) && EntryDescribes(entry, q)
    ensures p == q
  {
    assert Scalar(p.artifactId) == Scalar(q.artifactId);
  }

  /** An entry parses to a descriptor exactly when it describes that descriptor. */
  lemma ParseEntryDescribes(entry: Entry, p: Plugin)
    ensures ParseEntry(entry) == Success(p) <==> EntryDescribes(entry, p)
  {
    if EntryDescribes(entry, p) {
      assert EntryAcceptable(entry);
      EntryDescribesOne(entry, p, ParseEntry(entry).value);
    }
  }

  /** parsePluginYamlFile: each entry in document order, fail-fast; a null document is
      no request at all. */
  function ParsePluginYamlFile(document: Option<seq<Entry>>): (r: Result<seq<Plugin>, Malformed>)
    ensures document.None? ==> r == Success([])
    ensures r.Success? ==> forall i :: 0 <= i < |r.value| ==> WellFormed(r.value[i])
    ensures document.Some? ==>
      (r.Success? <==> forall i :: 0 <= i < |document.value| ==> ParseEntry(document.value[i]).Success?)
  {
    match document
    case None => Success([])
    case Some(entries) => ParseAll(entries, ParseEntry)
  }

  /** The entry that writes a descriptor in the document: the artifactId, and a source
      with the version and whichever of url and groupId it has, left out entirely for
      a plain latest request. This is one way of writing it among many. */
  function EntryOf(p: Plugin): (e: Entry) {
    if p.version == Latest && p.url.None? && p.groupId.None? then
      map[ArtifactIdKey := Scalar(p.artifactId)]
    else
      var withVersion := map[VersionKey := Scalar(p.version)];
      var withUrl := if p.url.Some? then withVersion[UrlKey := Scalar(p.url.value)] else withVersion;
      var source := if p.groupId.Some? then withUrl[GroupIdKey := Scalar(p.groupId.value)] else withUrl;
      map[ArtifactIdKey := Scalar(p.artifactId), SourceKey := Mapping(source)]
  }

  /** The entry EntryOf writes describes its descriptor. */
  lemma EntryOfDescribes(p: Plugin)
    requires WellFormed(p)
    ensures EntryDescribes(EntryOf(p), p)
  {
    if !(p.version == Latest && p.url.None? && p.groupId.None?) {
      var e := EntryOf(p);
      var source := e[SourceKey].fields;
      assert TextAt(source, VersionKey) == Some(p.version);
      assert TextAt(source, UrlKey) == p.url;
      assert TextAt(source, GroupIdKey) == p.groupId;
    }
  }

  /** Every well-formed descriptor, in particular every one a token or a line parses
      to, can be written as a document entry that parses back to it. */
  lemma ParseEntryOf(p: Plugin)
    requires WellFormed(p)
    ensures ParseEntry(EntryOf(p)) == Success(p)
  {
    EntryOfDescribes(p);
    ParseEntryDescribes(EntryOf(p), p);
  }

  /** A document parses to a list of descriptors exactly when it has one entry per
      descriptor and each entry describes the descriptor at its position. */
  lemma ParseDocumentDescribes(entries: seq<Entry>, ps: seq<Plugin>)
    ensures ParsePluginYamlFile(Some(entries)) == Success(ps)
        <==> |entries| == |ps| && forall i :: 0 <= i < |ps| ==> EntryDescribes(entries[i], ps[i])
  {
    var r := ParsePluginYamlFile(Some(entries));
    if |entries| == |ps| && forall i :: 0 <= i < |ps| ==> EntryDescribes(entries[i], ps[i]) {
      forall i | 0 <= i < |ps| ensures ParseEntry(entries[i]) == Success(ps[i]) {
        ParseEntryDescribes(entries[i], ps[i]);
      }
      assert r.Success?;
      assert forall i :: 0 <= i < |ps| ==> r.value[i] == ps[i];
      assert r.value == ps;
    }
    if r == Success(ps) {
      forall i | 0 <= i < |ps| ensures EntryDescribes(entries[i], ps[i]) {
        ParseEntryDescribes(entries[i], ps[i]);
      }
    }
  }

  /** A document written entry by entry with EntryOf reads back as those descriptors. */
  lemma ParseDocumentOf(ps: seq<Plugin>, entries: seq<Entry>)
    requires |entries| == |ps|
    requires forall i :: 0 <= i < |ps| ==> WellFormed(ps[i]) && entries[i] == EntryOf(ps[i])
    ensures ParsePluginYamlFile(Some(entries)) == Success(ps)
  {
    forall i | 0 <= i < |ps| ensures EntryDescribes(entries[i], ps[i]) {
      EntryOfDescribes(ps[i]);
    }
    ParseDocumentDescribes(entries, ps);
  }

  /** An entry without an artifactId (or with an empty one) is rejected. */
  lemma MissingArtifactIdRejected(entry: Entry)
    requires ArtifactIdKey !in entry || entry[ArtifactIdKey] == Scalar("")
    ensures ParseEntry(entry) == Failure(MissingArtifactId)
  {
  }

  /** An entry whose source holds a groupId but no version, or an empty one, is
      rejected, whatever else the source holds, as long as it holds strings. */
  lemma GroupIdNeedsVersion(artifactId: string, source: map<string, Node>)
    requires artifactId != ""
    requires GroupIdKey in source && ScalarOrAbsent(source, GroupIdKey) && ScalarOrAbsent(source, UrlKey)
    requires VersionKey !in source || source[VersionKey] == Scalar("")
    ensures ParseEntry(map[ArtifactIdKey := Scalar(artifactId), SourceKey := Mapping(source)])
         == Failure(GroupIdWithoutVersion(artifactId))
  {
    var entry := map[ArtifactIdKey := Scalar(artifactId), SourceKey := Mapping(source)];
    assert entry[ArtifactIdKey] == Scalar(artifactId) && entry[SourceKey] == Mapping(source);
  }

  /** With a non-empty version the same entry is accepted and pins the groupId. */
  lemma GroupIdWithVersionAccepted(artifactId: string, source: map<string, Node>, groupId: string, version: string)
    requires artifactId != "" && groupId != "" && version != ""
    requires GroupIdKey in source && source[GroupIdKey] == Scalar(groupId)
    requires VersionKey in source && source[VersionKey] == Scalar(version)
    requires ScalarOrAbsent(source, UrlKey)
    ensures ParseEntry(map[ArtifactIdKey := Scalar(artifactId), SourceKey := Mapping(source)])
         == Success(Plugin(artifactId, version, TextAt(source, UrlKey), Some(groupId)))
  {
    var entry := map[ArtifactIdKey := Scalar(artifactId), SourceKey := Mapping(source)];
    assert entry[ArtifactIdKey] == Scalar(artifactId) && entry[SourceKey] == Mapping(source);
    ParseEntryDescribes(entry, Plugin(artifactId, version, TextAt(source, UrlKey), Some(groupId)));
  }

  /** Fail-fast: one rejected entry anywhere rejects the whole document. */
  lemma BadEntryRejectsDocument(entries: seq<Entry>, k: nat)
    requires k < |entries| && ParseEntry(entries[k]).Failure?
    ensures ParsePluginYamlFile(Some(entries)).Failure?
  {
  }
}
