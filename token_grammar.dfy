/** The token grammar shared by command-line tokens and text-file lines:
      artifactId[:version[:url]]
    where the version segment may instead be incrementals;groupId;version. */
module TokenGrammar {
  import opened Wrappers
  import opened Text
  import opened Descriptor

  const FieldSeparator: char := ':'
  const IncrementalsSeparator: char := ';'
  const IncrementalsMarker: string := "incrementals"

  /** A version segment is in the incremental form when its first ';'-part is the marker. */
  predicate MarksIncrementals(segment: string) {
    SplitFirst(segment, IncrementalsSeparator).0 == IncrementalsMarker
  }

  /** The version and groupId a token's middle segment stands for. In the incremental
      form exactly a non-empty groupId and a non-empty version must follow the marker. */
  function ParseVersionSegment(token: string, segment: string): (r: Result<(string, Option<string>), Malformed>)
    ensures !MarksIncrementals(segment) ==> r == Success((EffectiveVersion(segment), None))
    ensures MarksIncrementals(segment) ==> r.Failure? || r.value.1.Some?
    ensures r.Failure? ==> r.error == BadIncrementals(token)
    ensures r.Success? && r.value.1.Some? ==>
      && r.value.0 != "" && r.value.1.value != ""
      && IncrementalsSeparator !in r.value.0 && IncrementalsSeparator !in r.value.1.value
      && segment == IncrementalsMarker + [IncrementalsSeparator] + r.value.1.value + [IncrementalsSeparator] + r.value.0
  {
    if !MarksIncrementals(segment) then Success((EffectiveVersion(segment), None))
    else
      var parts := Split(segment, IncrementalsSeparator);
      if |parts| == 3 && parts[1] != "" && parts[2] != "" then
        SplitHead(segment, IncrementalsSeparator);
        JoinThree(parts[0], parts[1], parts[2], IncrementalsSeparator);
        assert parts == [parts[0], parts[1], parts[2]];
        Success((parts[2], Some(parts[1])))
      else Failure(BadIncrementals(token))
  }

  /** One token or line, cut at its first two ':' (the url keeps any further ':'). */
  function ParseToken(token: string): (r: Result<Plugin, Malformed>)
    ensures r.Success? ==> WellFormed(r.value) && FieldSeparator !in r.value.artifactId
    ensures r.Failure? ==> r.error == EmptyArtifactId(token) || r.error == BadIncrementals(token)
    ensures r.Failure? && r.error == EmptyArtifactId(token) <==> token == [] || token[0] == FieldSeparator
  {
    var (artifactId, afterName) := SplitFirst(token, FieldSeparator);
    if artifactId == "" then Failure(EmptyArtifactId(token))
    else match afterName
      case None => Success(NewPlugin(artifactId, Latest, None, None))
      case Some(rest) =>
        var (segment, url) := SplitFirst(rest, FieldSeparator);
        match ParseVersionSegment(token, segment)
        case Failure(e) => Failure(e)
        case Success((version, groupId)) => Success(NewPlugin(artifactId, version, url, groupId))
  }

  /** The url part of a token: nothing, or ':' followed by the url. */
  function UrlTail(url: Option<string>): (tail: string)
    ensures url.None? <==> tail == []
    ensures url.Some? ==> tail == [FieldSeparator] + url.value
  {
    match url
    case None => []
    case Some(u) => [FieldSeparator] + u
  }

  /** Every token of the shape artifactId:segment[:url] fails exactly when its segment
      fails, with the segment's error; otherwise it gives the artifactId, the segment's
      version and groupId, and the url. A malformed incremental pin is thus rejected
      whether or not a url follows it. */
  lemma ParseTokenShape(a: string, segment: string, url: Option<string>)
    requires a != [] && FieldSeparator !in a && FieldSeparator !in segment
    ensures var token := a + [FieldSeparator] + segment + UrlTail(url);
      && (ParseToken(token).Failure? <==> ParseVersionSegment(token, segment).Failure?)
      && (ParseToken(token).Failure? ==> ParseToken(token).error == ParseVersionSegment(token, segment).error)
      && (ParseVersionSegment(token, segment).Success? ==>
            var (version, groupId) := ParseVersionSegment(token, segment).value;
            ParseToken(token) == Success(Plugin(a, version, url, groupId)))
  {
    var token := a + [FieldSeparator] + segment + UrlTail(url);
    assert token == a + [FieldSeparator] + (segment + UrlTail(url));
    SplitFirstAt(a, FieldSeparator, segment + UrlTail(url));
    match url
    case None =>
      assert segment + UrlTail(url) == segment;
      SplitFirstNone(segment, FieldSeparator);
    case Some(u) =>
      assert segment + UrlTail(url) == segment + [FieldSeparator] + u;
      SplitFirstAt(segment, FieldSeparator, u);
  }

  /** The version segment that writes a descriptor's version and groupId. */
  function VersionSegment(p: Plugin): (segment: string) {
    match p.groupId
    case None => p.version
    case Some(g) => Join([IncrementalsMarker, g, p.version], IncrementalsSeparator)
  }

  /** A token for a descriptor: artifactId:segment, then :url when there is one. */
  function Render(p: Plugin): (token: string) {
    p.artifactId + [FieldSeparator] + VersionSegment(p) + UrlTail(p.url)
  }

  /** The descriptors a token can stand for: those whose fields hold no delimiter
      where the grammar would cut at it. */
  predicate Renderable(p: Plugin) {
    && WellFormed(p)
    && FieldSeparator !in p.artifactId
    && FieldSeparator !in p.version
    && (p.groupId.None? ==> !MarksIncrementals(p.version))
    && (p.groupId.Some? ==>
          && FieldSeparator !in p.groupId.value
          && IncrementalsSeparator !in p.groupId.value
          && IncrementalsSeparator !in p.version)
  }

  lemma VersionSegmentParses(p: Plugin)
    requires Renderable(p)
    ensures FieldSeparator !in VersionSegment(p)
    ensures ParseVersionSegment(Render(p), VersionSegment(p)) == Success((p.version, p.groupId))
  {
    match p.groupId
    case None =>
    case Some(g) =>
      var parts := [IncrementalsMarker, g, p.version];
      NotInJoin(parts, IncrementalsSeparator, FieldSeparator);
      SplitJoin(parts, IncrementalsSeparator);
      assert Split(VersionSegment(p), IncrementalsSeparator) == parts;
  }

  /** Parsing the token Render gives back every renderable descriptor. */
  lemma ParseRender(p: Plugin)
    requires Renderable(p)
    ensures ParseToken(Render(p)) == Success(p)
  {
    VersionSegmentParses(p);
    ParseTokenShape(p.artifactId, VersionSegment(p), p.url);
  }

  /** Every descriptor a token parses to can be rendered back as a token. */
  lemma ParsedRenderable(token: string)
    requires ParseToken(token).Success?
    ensures Renderable(ParseToken(token).value)
  {
    var p := ParseToken(token).value;
    var (artifactId, afterName) := SplitFirst(token, FieldSeparator);
    if afterName.None? {
      SplitFirstNone(Latest, IncrementalsSeparator);
    } else {
      var (segment, url) := SplitFirst(afterName.value, FieldSeparator);
      if segment == "" {
        SplitFirstNone(Latest, IncrementalsSeparator);
      }
      if MarksIncrementals(segment) {
        var parts := Split(segment, IncrementalsSeparator);
        NotInJoin(parts, IncrementalsSeparator, FieldSeparator);
        assert p.groupId == Some(parts[1]) && p.version == parts[2];
      }
    }
  }

  /** Idempotence: re-parsing the rendering of a parsed token gives the same descriptor. */
  lemma ReparseRendered(token: string)
    requires ParseToken(token).Success?
    ensures ParseToken(Render(ParseToken(token).value)) == ParseToken(token)
  {
    ParsedRenderable(token);
    ParseRender(ParseToken(token).value);
  }

  /** A version with no ';' that is not the marker itself is a plain version. */
  lemma PlainVersion(v: string)
    requires IncrementalsSeparator !in v && v != IncrementalsMarker
    ensures !MarksIncrementals(v)
  {
    SplitFirstNone(v, IncrementalsSeparator);
  }

  // The forms of the grammar, one lemma each.

  /** `artifactId` alone: version latest, no url, no groupId. */
  lemma ParseBare(a: string)
    requires a != [] && FieldSeparator !in a
    ensures ParseToken(a) == Success(Plugin(a, Latest, None, None))
  {
    SplitFirstNone(a, FieldSeparator);
  }

  /** `artifactId:version`: the version, latest when empty; no url, no groupId. */
  lemma ParseWithVersion(a: string, v: string)
    requires a != [] && FieldSeparator !in a
    requires FieldSeparator !in v && !MarksIncrementals(v)
    ensures ParseToken(a + [FieldSeparator] + v) == Success(Plugin(a, EffectiveVersion(v), None, None))
  {
    SplitFirstAt(a, FieldSeparator, v);
    SplitFirstNone(v, FieldSeparator);
  }

  /** `artifactId:` is read as `artifactId`. */
  lemma ParseTrailingSeparator(a: string)
    requires a != [] && FieldSeparator !in a
    ensures ParseToken(a + [FieldSeparator]) == ParseToken(a) == Success(Plugin(a, Latest, None, None))
  {
    SplitFirstNone([], IncrementalsSeparator);
    ParseWithVersion(a, []);
    assert a + [FieldSeparator] + [] == a + [FieldSeparator];
    ParseBare(a);
  }

  /** `artifactId:version:url`: the version (latest when empty) and the url, which is
      everything after the second ':'. */
  lemma ParseWithUrl(a: string, v: string, u: string)
    requires a != [] && FieldSeparator !in a
    requires FieldSeparator !in v && !MarksIncrementals(v)
    ensures ParseToken(a + [FieldSeparator] + v + [FieldSeparator] + u)
         == Success(Plugin(a, EffectiveVersion(v), Some(u), None))
  {
    assert a + [FieldSeparator] + v + [FieldSeparator] + u == a + [FieldSeparator] + (v + [FieldSeparator] + u);
    SplitFirstAt(a, FieldSeparator, v + [FieldSeparator] + u);
    SplitFirstAt(v, FieldSeparator, u);
  }

  /** `artifactId:incrementals;groupId;version`: the groupId and the version, no url. */
  lemma ParseIncrementals(a: string, g: string, v: string)
    requires a != [] && FieldSeparator !in a
    requires g != [] && FieldSeparator !in g && IncrementalsSeparator !in g
    requires v != [] && FieldSeparator !in v && IncrementalsSeparator !in v
    ensures ParseToken(a + [FieldSeparator] + IncrementalsMarker + [IncrementalsSeparator] + g + [IncrementalsSeparator] + v)
         == Success(Plugin(a, v, None, Some(g)))
  {
    var p := Plugin(a, v, None, Some(g));
    JoinThree(IncrementalsMarker, g, v, IncrementalsSeparator);
    assert Render(p) == a + [FieldSeparator] + IncrementalsMarker + [IncrementalsSeparator] + g + [IncrementalsSeparator] + v;
    ParseRender(p);
  }

  /** `artifactId:incrementals;groupId;version:url`: the groupId, the version and the url. */
  lemma ParseIncrementalsWithUrl(a: string, g: string, v: string, u: string)
    requires a != [] && FieldSeparator !in a
    requires g != [] && FieldSeparator !in g && IncrementalsSeparator !in g
    requires v != [] && FieldSeparator !in v && IncrementalsSeparator !in v
    ensures ParseToken(a + [FieldSeparator] + IncrementalsMarker + [IncrementalsSeparator] + g + [IncrementalsSeparator] + v + [FieldSeparator] + u)
         == Success(Plugin(a, v, Some(u), Some(g)))
  {
    var p := Plugin(a, v, Some(u), Some(g));
    JoinThree(IncrementalsMarker, g, v, IncrementalsSeparator);
    assert Render(p) == a + [FieldSeparator] + IncrementalsMarker + [IncrementalsSeparator] + g + [IncrementalsSeparator] + v + [FieldSeparator] + u;
    ParseRender(p);
  }

  lemma JoinThree(x: string, y: string, z: string, d: char)
    ensures Join([x, y, z], d) == x + [d] + y + [d] + z
  {
    assert [x, y, z][1..] == [y, z];
    assert [y, z][1..] == [z];
    assert Join([z], d) == z;
    assert Join([y, z], d) == y + [d] + z;
    assert Join([x, y, z], d) == x + [d] + (y + [d] + z);
  }

  /** An incremental segment with a missing part is rejected, never guessed at. */
  lemma SegmentMissingPart(token: string, g: string)
    requires IncrementalsSeparator !in g
    ensures ParseVersionSegment(token, IncrementalsMarker + [IncrementalsSeparator] + g).Failure?
  {
    var seg := IncrementalsMarker + [IncrementalsSeparator] + g;
    assert [IncrementalsMarker, g][1..] == [g];
    assert Join([IncrementalsMarker, g], IncrementalsSeparator) == seg;
    SplitJoin([IncrementalsMarker, g], IncrementalsSeparator);
    SplitFirstAt(IncrementalsMarker, IncrementalsSeparator, g);
  }

  /** A token whose incremental segment lacks its version is rejected. */
  lemma ParseIncrementalsMissingPart(a: string, g: string)
    requires a != [] && FieldSeparator !in a
    requires FieldSeparator !in g && IncrementalsSeparator !in g
    ensures ParseToken(a + [FieldSeparator] + IncrementalsMarker + [IncrementalsSeparator] + g).Failure?
  {
    var seg := IncrementalsMarker + [IncrementalsSeparator] + g;
    var token := a + [FieldSeparator] + seg;
    SegmentMissingPart(token, g);
    assert FieldSeparator !in seg by {
      assert forall i :: 0 <= i < |seg| ==> seg[i] == (if i < |IncrementalsMarker| then IncrementalsMarker[i] else if i == |IncrementalsMarker| then IncrementalsSeparator else g[i - |IncrementalsMarker| - 1]);
    }
    assert a + [FieldSeparator] + IncrementalsMarker + [IncrementalsSeparator] + g == token;
    SplitFirstAt(a, FieldSeparator, seg);
    SplitFirstNone(seg, FieldSeparator);
  }

  /** The converse of ParseVersionSegment's incremental clause: the marker followed by a
      non-empty groupId and a non-empty version, both free of ';', gives exactly them. */
  lemma IncrementalSegmentParses(token: string, g: string, v: string)
    requires g != "" && v != "" && IncrementalsSeparator !in g && IncrementalsSeparator !in v
    ensures ParseVersionSegment(token, IncrementalsMarker + [IncrementalsSeparator] + g + [IncrementalsSeparator] + v)
         == Success((v, Some(g)))
  {
    var parts := [IncrementalsMarker, g, v];
    var segment := IncrementalsMarker + [IncrementalsSeparator] + g + [IncrementalsSeparator] + v;
    JoinThree(IncrementalsMarker, g, v, IncrementalsSeparator);
    SplitJoin(parts, IncrementalsSeparator);
    assert segment == IncrementalsMarker + [IncrementalsSeparator] + (g + [IncrementalsSeparator] + v);
    SplitFirstAt(IncrementalsMarker, IncrementalsSeparator, g + [IncrementalsSeparator] + v);
  }

  /** An incremental segment with a part after the version is rejected. */
  lemma SegmentExtraPart(token: string, g: string, v: string, x: string)
    requires IncrementalsSeparator !in g && IncrementalsSeparator !in v && IncrementalsSeparator !in x
    ensures ParseVersionSegment(token, IncrementalsMarker + [IncrementalsSeparator] + g + [IncrementalsSeparator] + v + [IncrementalsSeparator] + x)
         == Failure(BadIncrementals(token))
  {
    var parts := [IncrementalsMarker, g, v, x];
    var segment := IncrementalsMarker + [IncrementalsSeparator] + g + [IncrementalsSeparator] + v + [IncrementalsSeparator] + x;
    JoinThree(g, v, x, IncrementalsSeparator);
    assert parts[1..] == [g, v, x];
    assert Join(parts, IncrementalsSeparator) == segment;
    SplitJoin(parts, IncrementalsSeparator);
    SplitFirstAt(IncrementalsMarker, IncrementalsSeparator, g + [IncrementalsSeparator] + v + [IncrementalsSeparator] + x);
  }

  /** An incremental segment with an empty groupId or an empty version is rejected. */
  lemma SegmentEmptyPart(token: string, g: string, v: string)
    requires IncrementalsSeparator !in g && IncrementalsSeparator !in v
    requires g == "" || v == ""
    ensures ParseVersionSegment(token, IncrementalsMarker + [IncrementalsSeparator] + g + [IncrementalsSeparator] + v)
         == Failure(BadIncrementals(token))
  {
    var parts := [IncrementalsMarker, g, v];
    var segment := IncrementalsMarker + [IncrementalsSeparator] + g + [IncrementalsSeparator] + v;
    JoinThree(IncrementalsMarker, g, v, IncrementalsSeparator);
    SplitJoin(parts, IncrementalsSeparator);
    assert segment == IncrementalsMarker + [IncrementalsSeparator] + (g + [IncrementalsSeparator] + v);
    SplitFirstAt(IncrementalsMarker, IncrementalsSeparator, g + [IncrementalsSeparator] + v);
  }
}
