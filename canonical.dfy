/** The canonical string form of a descriptor. Each field is written with '\' and '|'
    escaped and is closed by '|'; an absent optional field is written "-", a present one
    "+" followed by its field. Absent and empty never collide, and the form decodes back
    to the descriptor, so equal forms mean equal descriptors. */
module Canonical {
  import opened Wrappers
  import opened Descriptor

  const FieldEnd: char := '|'
  const EscapeChar: char := '\\'
  const AbsentMark: char := '-'
  const PresentMark: char := '+'

  /** `s` with each '\' and '|' preceded by '\'. */
  function Escaped(s: string): (e: string)
    decreases |s|
  {
    if s == [] then []
    else if s[0] == EscapeChar || s[0] == FieldEnd then [EscapeChar, s[0]] + Escaped(s[1..])
    else [s[0]] + Escaped(s[1..])
  }

  function EncodeField(s: string): (e: string) {
    Escaped(s) + [FieldEnd]
  }

  function EncodeOptional(o: Option<string>): (e: string) {
    match o
    case None => [AbsentMark]
    case Some(s) => [PresentMark] + EncodeField(s)
  }

  /** The canonical form of a descriptor: its four fields in order. */
  function CanonicalForm(p: Plugin): (form: string) {
    EncodeField(p.artifactId) + EncodeField(p.version) + EncodeOptional(p.url) + EncodeOptional(p.groupId)
  }

  /** Reads one field off the front of `t`: its unescaped text and what follows its '|'. */
  function DecodeField(t: string): (r: Option<(string, string)>)
    ensures r.Some? ==> |r.value.1| < |t|
    decreases |t|
  {
    if t == [] then None
    else if t[0] == FieldEnd then Some(([], t[1..]))
    else if t[0] == EscapeChar then
      if |t| < 2 then None
      else match DecodeField(t[2..])
        case None => None
        case Some((s, rest)) => Some(([t[1]] + s, rest))
    else match DecodeField(t[1..])
      case None => None
      case Some((s, rest)) => Some(([t[0]] + s, rest))
  }

  function DecodeOptional(t: string): (r: Option<(Option<string>, string)>)
  {
    if t == [] then None
    else if t[0] == AbsentMark then Some((None, t[1..]))
    else if t[0] == PresentMark then
      match DecodeField(t[1..])
      case None => None
      case Some((s, rest)) => Some((Some(s), rest))
    else None
  }

  /** The descriptor a canonical form stands for, if `t` is one. */
  function DecodeCanonical(t: string): (r: Option<Plugin>) {
    match DecodeField(t)
    case None => None
    case Some((artifactId, t1)) =>
      match DecodeField(t1)
      case None => None
      case Some((version, t2)) =>
        match DecodeOptional(t2)
        case None => None
        case Some((url, t3)) =>
          match DecodeOptional(t3)
          case None => None
          case Some((groupId, t4)) =>
            if t4 == [] then Some(Plugin(artifactId, version, url, groupId)) else None
  }

  /** Decoding a field reads back exactly the text that was encoded and leaves the rest. */
  lemma {:induction false} DecodeEncodeField(s: string, rest: string)
    ensures DecodeField(EncodeField(s) + rest) == Some((s, rest))
    decreases |s|
  {
    var t := EncodeField(s) + rest;
    if s == [] {
      assert t == [FieldEnd] + rest;
    } else if s[0] == EscapeChar || s[0] == FieldEnd {
      assert t == [EscapeChar, s[0]] + (EncodeField(s[1..]) + rest);
      assert t[2..] == EncodeField(s[1..]) + rest;
      DecodeEncodeField(s[1..], rest);
      assert [s[0]] + s[1..] == s;
    } else {
      assert t == [s[0]] + (EncodeField(s[1..]) + rest);
      assert t[1..] == EncodeField(s[1..]) + rest;
      DecodeEncodeField(s[1..], rest);
      assert [s[0]] + s[1..] == s;
    }
  }

  lemma DecodeEncodeOptional(o: Option<string>, rest: string)
    ensures DecodeOptional(EncodeOptional(o) + rest) == Some((o, rest))
  {
    var t := EncodeOptional(o) + rest;
    match o
    case None =>
      assert t[1..] == rest;
    case Some(s) =>
      assert t[1..] == EncodeField(s) + rest;
      DecodeEncodeField(s, rest);
  }

  /** The canonical form decodes back to the descriptor it was made from. */
  lemma DecodeCanonicalForm(p: Plugin)
    ensures DecodeCanonical(CanonicalForm(p)) == Some(p)
  {
    var a, v, u, g := EncodeField(p.artifactId), EncodeField(p.version), EncodeOptional(p.url), EncodeOptional(p.groupId);
    assert CanonicalForm(p) == a + (v + u + g);
    DecodeEncodeField(p.artifactId, v + u + g);
    assert v + u + g == v + (u + g);
    DecodeEncodeField(p.version, u + g);
    DecodeEncodeOptional(p.url, g);
    assert g == g + [];
    DecodeEncodeOptional(p.groupId, []);
  }

  /** Two descriptors have the same canonical form exactly when they are equal: the
      form is what lets descriptors from different channels be compared as strings. */
  lemma CanonicalFormInjective(p: Plugin, q: Plugin)
    ensures CanonicalForm(p) == CanonicalForm(q) <==> p == q
  {
    if CanonicalForm(p) == CanonicalForm(q) {
      DecodeCanonicalForm(p);
      DecodeCanonicalForm(q);
    }
  }
}
