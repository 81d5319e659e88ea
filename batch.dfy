/** The command-line and text-file entry points, and the fail-fast traversal that all
    three entry points share. */
module Batch {
  import opened Wrappers
  import opened Text
  import opened Descriptor
  import opened TokenGrammar

  /** `parse` applied to each input in order. The first input that fails aborts the
      whole batch with its error: there is no partial result. */
  function ParseAll<T>(inputs: seq<T>, parse: T -> Result<Plugin, Malformed>): (r: Result<seq<Plugin>, Malformed>)
    ensures r.Success? <==> forall i :: 0 <= i < |inputs| ==> parse(inputs[i]).Success?
    ensures r.Success? ==> |r.value| == |inputs|
    ensures r.Success? ==> forall i :: 0 <= i < |inputs| ==> parse(inputs[i]) == Success(r.value[i])
    ensures r.Failure? ==>
      exists k :: 0 <= k < |inputs| && parse(inputs[k]) == Failure(r.error)
        && forall j :: 0 <= j < k ==> parse(inputs[j]).Success?
    decreases |inputs|
  {
    if inputs == [] then Success([])
    else match parse(inputs[0])
      case Failure(e) => Failure(e)
      case Success(p) =>
        var rest := ParseAll(inputs[1..], parse);
        assert forall i :: 1 <= i < |inputs| ==> inputs[i] == inputs[1..][i - 1];
        match rest
        case Failure(e) =>
          var k :| 0 <= k < |inputs[1..]| && parse(inputs[1..][k]) == Failure(e)
            && forall j :: 0 <= j < k ==> parse(inputs[1..][j]).Success?;
          assert parse(inputs[k + 1]) == Failure(e);
          Failure(e)
        case Success(ps) => Success([p] + ps)
  }

  /** parsePluginsFromCliOption: each token through the token grammar; a null array
      is no request at all. */
  function ParsePluginsFromCliOption(tokens: Option<seq<string>>): (r: Result<seq<Plugin>, Malformed>)
    ensures tokens.None? ==> r == Success([])
    ensures tokens.Some? ==>
      (r.Success? <==> forall i :: 0 <= i < |tokens.value| ==> ParseToken(tokens.value[i]).Success?)
    ensures tokens.Some? && r.Success? ==>
      && |r.value| == |tokens.value|
      && forall i :: 0 <= i < |tokens.value| ==> ParseToken(tokens.value[i]) == Success(r.value[i])
    ensures tokens.Some? && r.Failure? ==>
      exists k :: 0 <= k < |tokens.value| && ParseToken(tokens.value[k]) == Failure(r.error)
        && forall j :: 0 <= j < k ==> ParseToken(tokens.value[j]).Success?
    ensures r.Success? ==> forall i :: 0 <= i < |r.value| ==> WellFormed(r.value[i])
  {
    match tokens
    case None => Success([])
    case Some(ts) => ParseAll(ts, ParseToken)
  }

  /** The lines of a file that are not blank, in file order. */
  function NonBlankLines(lines: seq<string>): (r: seq<string>)
    ensures forall i :: 0 <= i < |r| ==> !IsBlank(r[i])
    ensures multiset(r) <= multiset(lines)
    ensures forall i :: 0 <= i < |lines| && !IsBlank(lines[i]) ==> lines[i] in r
    decreases |lines|
  {
    if lines == [] then []
    else
      var rest := NonBlankLines(lines[1..]);
      assert lines == [lines[0]] + lines[1..];
      assert forall i :: 1 <= i < |lines| ==> lines[i] == lines[1..][i - 1];
      if IsBlank(lines[0]) then rest else [lines[0]] + rest
  }

  /** parsePluginTxtFile: each non-blank line, whole, through the token grammar; a null
      file is no request at all. The file's lines arrive already read and split. */
  function ParsePluginTxtFile(file: Option<seq<string>>): (r: Result<seq<Plugin>, Malformed>)
    ensures file.None? ==> r == Success([])
    ensures file.Some? ==> r == ParsePluginsFromCliOption(Some(NonBlankLines(file.value)))
    ensures file.Some? ==>
      (r.Success? <==> forall i :: 0 <= i < |NonBlankLines(file.value)| ==> ParseToken(NonBlankLines(file.value)[i]).Success?)
    ensures file.Some? && r.Success? ==>
      && |r.value| == |NonBlankLines(file.value)|
      && forall i :: 0 <= i < |r.value| ==> ParseToken(NonBlankLines(file.value)[i]) == Success(r.value[i])
    ensures r.Success? ==> forall i :: 0 <= i < |r.value| ==> WellFormed(r.value[i])
  {
    match file
    case None => Success([])
    case Some(lines) => ParseAll(NonBlankLines(lines), ParseToken)
  }

  lemma {:induction false} NonBlankLinesAppend(a: seq<string>, b: seq<string>)
    ensures NonBlankLines(a + b) == NonBlankLines(a) + NonBlankLines(b)
    decreases |a|
  {
    if a == [] {
      assert a + b == b;
    } else {
      assert (a + b)[0] == a[0];
      assert (a + b)[1..] == a[1..] + b;
      NonBlankLinesAppend(a[1..], b);
    }
  }

  lemma NonBlankLinesSkipsBlank(before: seq<string>, line: string, after: seq<string>)
    requires IsBlank(line)
    ensures NonBlankLines(before + [line] + after) == NonBlankLines(before + after)
  {
    NonBlankLinesAppend(before + [line], after);
    NonBlankLinesAppend(before, [line]);
    NonBlankLinesAppend(before, after);
    BlankLineDropped(line);
    assert NonBlankLines(before + [line]) == NonBlankLines(before);
  }

  lemma BlankLineDropped(line: string)
    requires IsBlank(line)
    ensures NonBlankLines([line]) == []
  {
    assert [line][1..] == [];
  }

  /** A blank line anywhere in a text file changes nothing. */
  lemma BlankLineSkipped(before: seq<string>, line: string, after: seq<string>)
    requires IsBlank(line)
    ensures ParsePluginTxtFile(Some(before + [line] + after)) == ParsePluginTxtFile(Some(before + after))
  {
    NonBlankLinesSkipsBlank(before, line, after);
  }

  /** A text file without blank lines is read exactly as the same tokens given on the
      command line. */
  lemma TxtFileLikeCliOption(lines: seq<string>)
    requires forall i :: 0 <= i < |lines| ==> !IsBlank(lines[i])
    ensures ParsePluginTxtFile(Some(lines)) == ParsePluginsFromCliOption(Some(lines))
  {
    NonBlankLinesKeepsAll(lines);
  }

  lemma {:induction false} NonBlankLinesKeepsAll(lines: seq<string>)
    requires forall i :: 0 <= i < |lines| ==> !IsBlank(lines[i])
    ensures NonBlankLines(lines) == lines
    decreases |lines|
  {
    if lines != [] {
      assert forall i :: 0 <= i < |lines[1..]| ==> lines[1..][i] == lines[i + 1];
      NonBlankLinesKeepsAll(lines[1..]);
      assert lines == [lines[0]] + lines[1..];
    }
  }
}
