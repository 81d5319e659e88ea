/** Comparing what the three entry points return: each descriptor's canonical form,
    sorted, as PluginListParserTest compares them. */
module Channels {
  import opened Wrappers
  import opened Descriptor
  import opened Canonical
  import opened Ordering
  import opened Batch
  import opened TokenGrammar

  /** The canonical form of each descriptor, in order. */
  function CanonicalForms(ps: seq<Plugin>): (r: seq<string>)
    ensures |r| == |ps|
    ensures forall i :: 0 <= i < |ps| ==> r[i] == CanonicalForm(ps[i])
    decreases |ps|
  {
    if ps == [] then [] else [CanonicalForm(ps[0])] + CanonicalForms(ps[1..])
  }

  /** The list a test compares: the canonical forms, sorted. */
  function SortedCanonicalForms(ps: seq<Plugin>): (r: seq<string>)
    ensures Sorted(r) && multiset(r) == multiset(CanonicalForms(ps))
  {
    Sort(CanonicalForms(ps))
  }

  /** The descriptor a string is the canonical form of, if any. */
  function FormOf(s: string): (r: Option<Plugin>)
    ensures r.Some? ==> CanonicalForm(r.value) == s
  {
    match DecodeCanonical(s)
    case None => None
    case Some(p) => if CanonicalForm(p) == s then Some(p) else None
  }

  lemma FormOfCanonical(p: Plugin)
    ensures FormOf(CanonicalForm(p)) == Some(p)
  {
    DecodeCanonicalForm(p);
  }

  /** How often `p` occurs in `ps` when `o` is Some(p); 0 when it is None. */
  function Occurrences(ps: seq<Plugin>, o: Option<Plugin>): (n: nat) {
    match o
    case None => 0
    case Some(p) => multiset(ps)[p]
  }

  /** A string occurs among the canonical forms as often as the descriptor it is the
      form of occurs among the descriptors, and never when it is no descriptor's form. */
  lemma {:induction false} CanonicalFormsCount(ps: seq<Plugin>, s: string)
    ensures multiset(CanonicalForms(ps))[s] == Occurrences(ps, FormOf(s))
    decreases |ps|
  {
    if ps != [] {
      CanonicalFormsCount(ps[1..], s);
      FormsCountCons(ps, s);
      OccurrencesCons(ps, FormOf(s));
      if CanonicalForm(ps[0]) == s {
        FormOfCanonical(ps[0]);
      }
    }
  }

  lemma FormsCountCons(ps: seq<Plugin>, s: string)
    requires ps != []
    ensures multiset(CanonicalForms(ps))[s]
         == (if CanonicalForm(ps[0]) == s then 1 else 0) + multiset(CanonicalForms(ps[1..]))[s]
  {
    MultisetCons(CanonicalForms(ps));
  }

  lemma OccurrencesCons(ps: seq<Plugin>, o: Option<Plugin>)
    requires ps != []
    ensures Occurrences(ps, o) == (if o == Some(ps[0]) then 1 else 0) + Occurrences(ps[1..], o)
  {
    MultisetCons(ps);
  }

  lemma SameDescriptorsSameForms(ps: seq<Plugin>, qs: seq<Plugin>)
    requires multiset(ps) == multiset(qs)
    ensures multiset(CanonicalForms(ps)) == multiset(CanonicalForms(qs))
  {
    forall s ensures multiset(CanonicalForms(ps))[s] == multiset(CanonicalForms(qs))[s] {
      CanonicalFormsCount(ps, s);
      CanonicalFormsCount(qs, s);
    }
  }

  lemma SameFormsSameDescriptors(ps: seq<Plugin>, qs: seq<Plugin>)
    requires multiset(CanonicalForms(ps)) == multiset(CanonicalForms(qs))
    ensures multiset(ps) == multiset(qs)
  {
    forall p ensures multiset(ps)[p] == multiset(qs)[p] {
      FormOfCanonical(p);
      CanonicalFormsCount(ps, CanonicalForm(p));
      CanonicalFormsCount(qs, CanonicalForm(p));
    }
  }

  /** Two batches give the same sorted list of canonical forms exactly when they hold
      the same descriptors the same number of times, whatever their order. */
  lemma SameSortedFormsIffSameDescriptors(ps: seq<Plugin>, qs: seq<Plugin>)
    ensures SortedCanonicalForms(ps) == SortedCanonicalForms(qs) <==> multiset(ps) == multiset(qs)
  {
    SortEqualIffSameMultiset(CanonicalForms(ps), CanonicalForms(qs));
    if multiset(ps) == multiset(qs) {
      SameDescriptorsSameForms(ps, qs);
    }
    if multiset(CanonicalForms(ps)) == multiset(CanonicalForms(qs)) {
      SameFormsSameDescriptors(ps, qs);
    }
  }

  /** The inputs with the one at `j` removed. */
  function Without<T>(s: seq<T>, j: nat): (r: seq<T>)
    requires j < |s|
    ensures multiset(r) == multiset(s) - multiset{s[j]}
  {
    assert s == s[..j] + [s[j]] + s[j + 1..];
    s[..j] + s[j + 1..]
  }

  /** A batch all of whose inputs parse still parses when its inputs are reordered. */
  lemma ParseAllPermutedSucceeds<T>(xs: seq<T>, ys: seq<T>, parse: T -> Result<Plugin, Malformed>)
    requires multiset(xs) == multiset(ys)
    requires ParseAll(xs, parse).Success?
    ensures ParseAll(ys, parse).Success?
  {
    forall i | 0 <= i < |ys| ensures parse(ys[i]).Success? {
      assert ys[i] in multiset(xs);
      var k :| 0 <= k < |xs| && xs[k] == ys[i];
    }
  }

  lemma ParseAllHead<T>(xs: seq<T>, parse: T -> Result<Plugin, Malformed>)
    requires xs != [] && ParseAll(xs, parse).Success?
    ensures ParseAll(xs[1..], parse).Success?
    ensures ParseAll(xs, parse).value == [parse(xs[0]).value] + ParseAll(xs[1..], parse).value
  {
    var tail := xs[1..];
    assert forall i :: 0 <= i < |tail| ==> tail[i] == xs[i + 1];
    var us, ts := ParseAll(xs, parse).value, ParseAll(tail, parse).value;
    assert forall i :: 0 <= i < |ts| ==> us[i + 1] == ts[i];
  }

  /** ParseAll's result is fixed by the result of each input. */
  lemma ParseAllPointwise<T>(xs: seq<T>, vs: seq<Plugin>, parse: T -> Result<Plugin, Malformed>)
    requires |vs| == |xs|
    requires forall i :: 0 <= i < |xs| ==> parse(xs[i]) == Success(vs[i])
    ensures ParseAll(xs, parse) == Success(vs)
  {
    var r := ParseAll(xs, parse);
    assert r.Success?;
    assert forall i :: 0 <= i < |xs| ==> r.value[i] == vs[i];
    assert r.value == vs;
  }

  lemma ParseAllWithout<T>(ys: seq<T>, j: nat, parse: T -> Result<Plugin, Malformed>)
    requires j < |ys| && ParseAll(ys, parse).Success?
    ensures ParseAll(Without(ys, j), parse) == Success(Without(ParseAll(ys, parse).value, j))
  {
    var rest := Without(ys, j);
    var vs := ParseAll(ys, parse).value;
    var ws := Without(vs, j);
    forall i | 0 <= i < |rest| ensures parse(rest[i]) == Success(ws[i]) {
      if i < j {
        assert rest[i] == ys[i] && ws[i] == vs[i];
      } else {
        assert rest[i] == ys[i + 1] && ws[i] == vs[i + 1];
      }
    }
    ParseAllPointwise(rest, ws, parse);
  }

  lemma MultisetAfterRemoval(us: seq<Plugin>, ts: seq<Plugin>, vs: seq<Plugin>, j: nat)
    requires us != [] && us == [us[0]] + ts
    requires j < |vs| && vs[j] == us[0]
    requires multiset(ts) == multiset(Without(vs, j))
    ensures multiset(us) == multiset(vs)
  {
    assert multiset(us) == multiset{us[0]} + multiset(ts);
  }

  /** Reordering a batch's inputs reorders its descriptors and changes nothing else. */
  lemma {:induction false} ParseAllPermuted<T>(xs: seq<T>, ys: seq<T>, parse: T -> Result<Plugin, Malformed>)
    requires multiset(xs) == multiset(ys)
    requires ParseAll(xs, parse).Success?
    ensures ParseAll(ys, parse).Success?
    ensures multiset(ParseAll(xs, parse).value) == multiset(ParseAll(ys, parse).value)
    decreases |xs|
  {
    ParseAllPermutedSucceeds(xs, ys, parse);
    if xs == [] {
      assert |multiset(ys)| == 0;
    } else {
      var head, tail := xs[0], xs[1..];
      assert xs == [head] + tail;
      assert multiset(xs) == multiset{head} + multiset(tail);
      assert head in multiset(ys);
      var j :| 0 <= j < |ys| && ys[j] == head;
      var rest := Without(ys, j);
      assert multiset(tail) == multiset(rest);
      ParseAllHead(xs, parse);
      ParseAllWithout(ys, j, parse);
      ParseAllPermuted(tail, rest, parse);
      var us, vs := ParseAll(xs, parse).value, ParseAll(ys, parse).value;
      MultisetAfterRemoval(us, ParseAll(tail, parse).value, vs, j);
    }
  }

  /** A text file whose non-blank lines are a rearrangement of a CLI token list that
      parses gives the same sorted canonical list as the CLI option. */
  lemma TxtFileSortsLikeCliOption(lines: seq<string>, tokens: seq<string>)
    requires multiset(NonBlankLines(lines)) == multiset(tokens)
    requires ParsePluginsFromCliOption(Some(tokens)).Success?
    ensures ParsePluginTxtFile(Some(lines)).Success?
    ensures SortedCanonicalForms(ParsePluginTxtFile(Some(lines)).value)
         == SortedCanonicalForms(ParsePluginsFromCliOption(Some(tokens)).value)
  {
    ParseAllPermuted(tokens, NonBlankLines(lines), ParseToken);
    SameSortedFormsIffSameDescriptors(ParsePluginTxtFile(Some(lines)).value, ParsePluginsFromCliOption(Some(tokens)).value);
  }
}
