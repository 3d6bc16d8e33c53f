/**
 * The MG5_aMC@NLO run script's card templating: `make_card` copies the input card, and for
 * each field rewrites every line that mentions the field's name, replacing the text after
 * `"<name> "` with the new value. Also the fields the script sets and the new card's name.
 *
 * The card is the list `readlines()` returns: each line keeps its newline.
 */
module Mg5Card {
  import opened Wrappers
  import opened Text
  import opened Paths
  import opened Cards

  // ---------------------------------------------------------------------------
  // The pattern `name + r' (.*)$'`
  // ---------------------------------------------------------------------------

  /** Where `$` can sit: before a final newline, else at the end. */
  function LineEnd(line: string): (e: nat)
    ensures e <= |line|
  {
    if |line| > 0 && line[|line| - 1] == '\n' then |line| - 1 else |line|
  }

  /**
   * The pattern matches at `k`: `name ` starts there, and `.*` (which stops at a
   * newline) can reach the `$` position.
   */
  predicate MatchAt(line: string, name: string, k: int)
  {
    IsAt(line, name + " ", k) && forall i :: k + |name| + 1 <= i < LineEnd(line) ==> line[i] != '\n'
  }

  /** `re.search`: the first position at or after `k` where the pattern matches. */
  function Search(line: string, name: string, k: nat): (r: Option<nat>)
    ensures r.Some? ==> k <= r.value && MatchAt(line, name, r.value)
    ensures r.Some? ==> forall i :: k <= i < r.value ==> !MatchAt(line, name, i)
    ensures r.None? ==> forall i :: k <= i ==> !MatchAt(line, name, i)
    decreases |line| - k
  {
    if k > |line| then None
    else if MatchAt(line, name, k) then Some(k)
    else Search(line, name, k + 1)
  }

  /** `.group(1)`: the text after `name ` up to the end of the line, without its newline. */
  function Group(line: string, name: string, k: nat): (g: string)
    requires MatchAt(line, name, k)
    ensures |g| == LineEnd(line) - (k + |name| + 1)
  {
    line[k + |name| + 1..LineEnd(line)]
  }

  // ---------------------------------------------------------------------------
  // Rewriting
  // ---------------------------------------------------------------------------

  /**
   * One line for one field: empty lines, comments and lines not mentioning the name are
   * kept; on the others every occurrence of the old value is replaced. A line that mentions
   * the name but never as `name ` makes `p.search` return None, and `.group` raises
   * AttributeError (the `except IndexError` does not catch it).
   */
  function RewriteLine(line: string, name: string, value: string): Result<string>
  {
    if line == "" || StartsWith(line, "#") || !Contains(line, name) then Ok(line)
    else
      match Search(line, name, 0)
      case None => Err(AttributeError("'NoneType' object has no attribute 'group'"))
      case Some(k) => Ok(ReplaceAll(line, Group(line, name, k), value))
  }

  /** The inner loop of `make_card`: one field over all the lines of the card. */
  function RewriteLines(lines: seq<string>, name: string, value: string): Result<seq<string>>
  {
    MapResults((line: string) => RewriteLine(line, name, value), lines)
  }

  /** The outer loop of `make_card`: the fields one after the other, each on the result of the earlier ones. */
  function ApplyFields(lines: seq<string>, fields: seq<(string, string)>): (r: Result<seq<string>>)
    ensures r.Ok? ==> |r.value| == |lines|
    decreases |fields|
  {
    if fields == [] then Ok(lines)
    else
      var next :- RewriteLines(lines, fields[0].0, fields[0].1);
      ApplyFields(next, fields[1..])
  }

  /** Fields are applied sequentially: a split of the field list is two runs in a row. */
  lemma {:induction false} ApplyFieldsConcat(lines: seq<string>, f1: seq<(string, string)>, f2: seq<(string, string)>)
    ensures ApplyFields(lines, f1 + f2) == (var mid :- ApplyFields(lines, f1); ApplyFields(mid, f2))
    decreases |f1|
  {
    if f1 == [] {
      assert f1 + f2 == f2;
    } else {
      assert (f1 + f2)[0] == f1[0];
      assert (f1 + f2)[1..] == f1[1..] + f2;
      var next := RewriteLines(lines, f1[0].0, f1[0].1);
      if next.Ok? {
        ApplyFieldsConcat(next.value, f1[1..], f2);
      }
    }
  }

  /** Appending one field: the last field acts on the card the others produced. */
  lemma {:induction false} ApplyFieldsLast(lines: seq<string>, fields: seq<(string, string)>, f: (string, string))
    ensures ApplyFields(lines, fields + [f]) ==
      (var mid :- ApplyFields(lines, fields); RewriteLines(mid, f.0, f.1))
  {
    ApplyFieldsConcat(lines, fields, [f]);
    var mid := ApplyFields(lines, fields);
    if mid.Ok? {
      var r := RewriteLines(mid.value, f.0, f.1);
      if r.Ok? {
        assert ApplyFields(r.value, []) == r;
      }
    }
  }

  /** One more field applied. */
  lemma {:induction false} ApplyFieldsStep(lines: seq<string>, fields: seq<(string, string)>, f: int, cur: seq<string>)
    requires 0 <= f < |fields| && ApplyFields(lines, fields[..f]) == Ok(cur)
    requires RewriteLines(cur, fields[f].0, fields[f].1).Ok?
    ensures ApplyFields(lines, fields[..f + 1]) == RewriteLines(cur, fields[f].0, fields[f].1)
  {
    ApplyFieldsLast(lines, fields[..f], fields[f]);
    assert fields[..f] + [fields[f]] == fields[..f + 1];
  }

  /** A field whose pass fails ends the run with that failure. */
  lemma {:induction false} ApplyFieldsStop(lines: seq<string>, fields: seq<(string, string)>, f: int, cur: seq<string>)
    requires 0 <= f < |fields| && ApplyFields(lines, fields[..f]) == Ok(cur)
    requires RewriteLines(cur, fields[f].0, fields[f].1).Err?
    ensures ApplyFields(lines, fields) == RewriteLines(cur, fields[f].0, fields[f].1)
  {
    ApplyFieldsLast(lines, fields[..f], fields[f]);
    assert fields[..f] + [fields[f]] == fields[..f + 1];
    ApplyFieldsConcat(lines, fields[..f + 1], fields[f + 1..]);
    assert fields[..f + 1] + fields[f + 1..] == fields;
  }

  /** Empty lines, comments and lines mentioning none of the names come out unchanged. */
  lemma {:induction false} ApplyFieldsKeeps(lines: seq<string>, fields: seq<(string, string)>, i: int)
    requires ApplyFields(lines, fields).Ok? && 0 <= i < |lines|
    requires lines[i] == "" || StartsWith(lines[i], "#") || forall j :: 0 <= j < |fields| ==> !Contains(lines[i], fields[j].0)
    ensures ApplyFields(lines, fields).value[i] == lines[i]
    decreases |fields|
  {
    if fields != [] {
      var next := RewriteLines(lines, fields[0].0, fields[0].1).value;
      assert next[i] == RewriteLine(lines[i], fields[0].0, fields[0].1).value;
      assert next[i] == lines[i];
      if !(lines[i] == "" || StartsWith(lines[i], "#")) {
        assert forall j :: 0 <= j < |fields[1..]| ==> fields[1..][j] == fields[j + 1];
      }
      ApplyFieldsKeeps(next, fields[1..], i);
    }
  }

  /** With no fields the new card is the template, character for character. */
  lemma {:induction false} NoFieldsSameText(lines: seq<string>)
    ensures ApplyFields(lines, []).Ok? && Join("", ApplyFields(lines, []).value) == Join("", lines)
  {
  }

  /** One more line rewritten. */
  lemma {:induction false} RewriteLinesStep(lines: seq<string>, name: string, value: string, i: int, done: seq<string>)
    requires 0 <= i < |lines| && RewriteLines(lines[..i], name, value) == Ok(done)
    requires RewriteLine(lines[i], name, value).Ok?
    ensures RewriteLines(lines[..i + 1], name, value) == Ok(done + [RewriteLine(lines[i], name, value).value])
  {
    MapResultsStep((line: string) => RewriteLine(line, name, value), lines, i, done);
  }

  /** The first line that fails decides the pass's error. */
  lemma {:induction false} RewriteLinesStop(lines: seq<string>, name: string, value: string, i: int)
    requires 0 <= i < |lines| && RewriteLines(lines[..i], name, value).Ok?
    requires RewriteLine(lines[i], name, value).Err?
    ensures RewriteLines(lines, name, value) == Err(RewriteLine(lines[i], name, value).error)
  {
    MapResultsStop((line: string) => RewriteLine(line, name, value), lines, i);
  }

  /** Every failure of a field's pass over the card is the AttributeError of `None.group`. */
  lemma {:induction false} RewriteLinesErrKind(lines: seq<string>, name: string, value: string)
    requires RewriteLines(lines, name, value).Err?
    ensures RewriteLines(lines, name, value).error.AttributeError?
  {
    var i := MapResultsErrFrom((line: string) => RewriteLine(line, name, value), lines);
    assert RewriteLine(lines[i], name, value).Err?;
  }

  /**
   * A non-comment line that mentions a field's name, but never followed by a space, aborts
   * the card with the AttributeError of `None.group`.
   */
  lemma {:induction false} MissingSpaceRaises(lines: seq<string>, name: string, value: string, i: int)
    requires 0 <= i < |lines| && name != "" && !StartsWith(lines[i], "#") && Contains(lines[i], name)
    requires !Contains(lines[i], name + " ")
    ensures ApplyFields(lines, [(name, value)]).Err?
    ensures ApplyFields(lines, [(name, value)]).error.AttributeError?
  {
    var line := lines[i];
    ContainsNonEmpty(line, name);
    assert RewriteLine(line, name, value).Err?;
    assert lines[i] == line;
    RewriteLinesErrKind(lines, name, value);
  }

  /** `re.search` finds the first match: a match with none before it is the one found. */
  lemma {:induction false} SearchFirst(line: string, name: string, k: nat, i: nat)
    requires i <= k && MatchAt(line, name, k)
    requires forall j :: i <= j < k ==> !MatchAt(line, name, j)
    ensures Search(line, name, i) == Some(k)
    decreases k - i
  {
    if i < k {
      SearchFirst(line, name, k, i + 1);
    }
  }

  /**
   * The test is for a substring, not a word: with `-n 200`, the line `set genevents 5`
   * is rewritten to `set genevents 200`, and so for any one-digit old value and any new value.
   */
  lemma {:induction false} SubstringRewritten(d: char, value: string)
    requires IsDigit(d)
    ensures RewriteLine("set genevents " + [d] + "\n", "nevents", value) == Ok("set genevents " + value + "\n")
  {
    var line := "set genevents " + [d] + "\n";
    GeneventsFound(d);
    assert !StartsWith(line, "#") by { assert line[..1][0] == 's'; }
    RewriteTail(line, "nevents", value, 6);
    assert line[..6 + |"nevents"|] + " " == "set genevents ";
    assert line[LineEnd(line)..] == "\n";
  }

  /**
   * In `set genevents <d>`, the pattern for `nevents` is found inside `genevents`, and the
   * old value it captures occurs nowhere else.
   */
  lemma {:induction false} GeneventsFound(d: char)
    requires IsDigit(d)
    ensures var line := "set genevents " + [d] + "\n";
      Search(line, "nevents", 0) == Some(6) && Group(line, "nevents", 6) == [d] &&
      forall j :: j != 14 ==> !IsAt(line, [d], j)
  {
    var line := "set genevents " + [d] + "\n";
    forall j | j != 14 ensures !IsAt(line, [d], j) {
      if IsAt(line, [d], j) {
        IsAtChar(line, [d], j, 0);
        assert false;
      }
    }
    assert LineEnd(line) == 15;
    assert MatchAt(line, "nevents", 6) by {
      assert line[6..14] == "nevents ";
      assert line[14] == d;
    }
    forall j | 0 <= j < 6 ensures !MatchAt(line, "nevents", j) {
      if MatchAt(line, "nevents", j) {
        IsAtChar(line, "nevents ", j, 0);
        assert false;
      }
    }
    SearchFirst(line, "nevents", 6, 0);
    assert Group(line, "nevents", 6) == line[14..15] == [d];
  }

  /** With `-n 200`, a template line `output genevents` aborts the card with AttributeError. */
  lemma {:induction false} SubstringAborts()
    ensures ApplyFields(["output genevents\n"], [("nevents", "200")]).Err?
    ensures ApplyFields(["output genevents\n"], [("nevents", "200")]).error.AttributeError?
  {
    var other := "output genevents\n";
    assert IsAt(other, "nevents", 9) by {
      assert other[9..16] == "nevents";
    }
    ContainsAt(other, "nevents", 9);
    forall j ensures !IsAt(other, "nevents ", j) {
      if IsAt(other, "nevents ", j) {
        IsAtChar(other, "nevents ", j, 7);
        assert false;
      }
    }
    assert "nevents" + " " == "nevents ";
    assert !Contains(other, "nevents ");
    assert !StartsWith(other, "#") by { assert other[..1][0] == 'o'; }
    var lines := [other];
    assert lines[0] == other;
    MissingSpaceRaises(lines, "nevents", "200", 0);
  }

  // ---------------------------------------------------------------------------
  // The word match `make_card`'s documentation describes
  // ---------------------------------------------------------------------------

  /** `name` stands as a word at `k`: at the start of the line or after a space, and the pattern matches there. */
  predicate WordAt(line: string, name: string, k: int)
  {
    MatchAt(line, name, k) && (k == 0 || line[k - 1] == ' ')
  }

  /** The first position at or after `k` where `name` stands as a word. */
  function WordSearch(line: string, name: string, k: nat): (r: Option<nat>)
    ensures r.Some? ==> k <= r.value && WordAt(line, name, r.value)
    ensures r.Some? ==> forall i :: k <= i < r.value ==> !WordAt(line, name, i)
    ensures r.None? ==> forall i :: k <= i ==> !WordAt(line, name, i)
    decreases |line| - k
  {
    if k > |line| then None
    else if WordAt(line, name, k) then Some(k)
    else WordSearch(line, name, k + 1)
  }

  /**
   * One line for one field, matching `name` only as a word: a line where it never stands as a
   * word followed by a space is kept, and no line aborts the card.
   */
  function WordRewriteLine(line: string, name: string, value: string): (r: Result<string>)
    ensures r.Ok?
    ensures (forall k :: 0 <= k ==> !WordAt(line, name, k)) ==> r == Ok(line)
  {
    if line == "" || StartsWith(line, "#") then Ok(line)
    else
      match WordSearch(line, name, 0)
      case None => Ok(line)
      case Some(k) => Ok(ReplaceAll(line, Group(line, name, k), value))
  }

  /** Where the first occurrence `make_card` finds is a word, the word match rewrites the line the same way. */
  lemma {:induction false} WordRewriteAgrees(line: string, name: string, value: string, k: nat)
    requires Search(line, name, 0) == Some(k) && WordAt(line, name, k)
    ensures WordRewriteLine(line, name, value) == RewriteLine(line, name, value)
  {
    WordSearchFirst(line, name, k, 0);
    assert IsAt(line, name, k) by {
      assert line[k..k + |name|] == line[k..k + |name| + 1][..|name|];
    }
    ContainsAt(line, name, k);
  }

  lemma {:induction false} WordSearchFirst(line: string, name: string, k: nat, i: nat)
    requires i <= k && Search(line, name, i) == Some(k) && WordAt(line, name, k)
    ensures WordSearch(line, name, i) == Some(k)
    decreases k - i
  {
    if i < k {
      WordSearchFirst(line, name, k, i + 1);
    }
  }

  /**
   * With the word match, neither of the lines that mention `nevents` only inside `genevents`
   * changes, whatever the new value and the one-digit old value.
   */
  lemma {:induction false} WordRewriteKeepsGenevents(d: char, value: string)
    requires IsDigit(d)
    ensures var line := "set genevents " + [d] + "\n"; WordRewriteLine(line, "nevents", value) == Ok(line)
    ensures WordRewriteLine("output genevents\n", "nevents", value) == Ok("output genevents\n")
  {
    NoWordInSetGenevents(d);
    NoWordInOutputGenevents();
  }

  /** In `set genevents <d>`, `nevents` never stands as a word. */
  lemma {:induction false} NoWordInSetGenevents(d: char)
    requires IsDigit(d)
    ensures forall k :: 0 <= k ==> !WordAt("set genevents " + [d] + "\n", "nevents", k)
  {
    var line := "set genevents " + [d] + "\n";
    forall k | 0 <= k ensures !WordAt(line, "nevents", k) {
      if WordAt(line, "nevents", k) {
        IsAtChar(line, "nevents ", k, 0);
        assert false;
      }
    }
  }

  /** In `output genevents`, `nevents` never stands as a word. */
  lemma {:induction false} NoWordInOutputGenevents()
    ensures forall k :: 0 <= k ==> !WordAt("output genevents\n", "nevents", k)
  {
    var other := "output genevents\n";
    forall k | 0 <= k ensures !WordAt(other, "nevents", k) {
      if WordAt(other, "nevents", k) {
        IsAtChar(other, "nevents ", k, 7);
        assert false;
      }
    }
  }

  // ---------------------------------------------------------------------------
  // The round trip with `get_value_from_card`
  // ---------------------------------------------------------------------------

  /**
   * When the old value occurs only once in the line, the rewritten line is the line up to
   * `name` (which still ends it), a space and the new value, and the newline if there was one.
   */
  lemma {:induction false} RewriteTail(line: string, name: string, value: string, k: nat)
    requires line != "" && !StartsWith(line, "#")
    requires Search(line, name, 0) == Some(k)
    requires var g := Group(line, name, k);
      |g| > 0 && forall j :: j != k + |name| + 1 ==> !IsAt(line, g, j)
    ensures var x := line[..k + |name|];
      IsAt(x, name, k) &&
      RewriteLine(line, name, value) == Ok(x + " " + value + line[LineEnd(line)..])
    ensures line[LineEnd(line)..] == "" || line[LineEnd(line)..] == "\n"
  {
    var j := k + |name| + 1;
    var g := Group(line, name, k);
    var x := line[..k + |name|];
    assert IsAt(line, name + " ", k);
    assert line[k..k + |name|] == line[k..j][..|name|];
    ContainsAt(line, name, k);
    assert IsAt(line, g, j);
    ReplaceOnce(line, g, value, j);
    assert line[j + |g|..] == line[LineEnd(line)..];
    assert line[..j] == x + " ";
    assert x[k..k + |name|] == line[k..k + |name|];
  }

  /** The last word of `x + " " + v`, for a word `v`, is `v`. */
  lemma {:induction false} LastWordAfterSpace(x: string, v: string)
    requires NoSpace(v)
    ensures LastWord(x + " " + v) == v
    decreases |v|
  {
    var s := x + " " + v;
    if v == [] {
      assert IsSpace(s[|s| - 1]);
    } else {
      var f := v[..|v| - 1];
      assert s[..|s| - 1] == x + " " + f;
      LastWordAfterSpace(x, f);
      assert f + [v[|v| - 1]] == v;
    }
  }

  /** Leading whitespace stops at the first non-space character. */
  lemma {:induction false} LStripKeepsFrom(s: string, i: int)
    requires 0 <= i < |s| && !IsSpace(s[i])
    ensures |LStrip(s)| >= |s| - i
    decreases |s|
  {
    if |s| > 0 && IsSpace(s[0]) {
      assert s[1..][i - 1] == s[i];
      LStripKeepsFrom(s[1..], i - 1);
    }
  }

  /** Stripping a word-ending string with a possible newline: the newline goes, the rest keeps its end. */
  lemma {:induction false} RStripTail(s: string, tail: string)
    requires |s| > 0 && !IsSpace(s[|s| - 1]) && (tail == "" || tail == "\n")
    ensures RStrip(s + tail) == s
  {
    if tail == "\n" {
      assert (s + tail)[..|s + tail| - 1] == s;
    } else {
      assert s + tail == s;
    }
  }

  lemma {:induction false} DropConcat(p: string, q: string, a: nat)
    requires a <= |p|
    ensures (p + q)[a..] == p[a..] + q
  {
  }

  /** Leading blanks of `x + " " + value` all lie before the non-space character at `k`. */
  lemma {:induction false} LStripWord(x: string, value: string, k: nat) returns (a: nat)
    requires k < |x| && !IsSpace(x[k])
    ensures a <= k && LStrip(x + " " + value) == x[a..] + " " + value
  {
    var body := x + " " + value;
    var t := LStrip(body);
    a := |body| - |t|;
    assert a <= k by {
      assert body[k] == x[k];
      LStripKeepsFrom(body, k);
    }
    assert t == body[a..];
    DropConcat(x, " " + value, a);
    assert x + " " + value == x + (" " + value);
    assert x[a..] + (" " + value) == x[a..] + " " + value;
  }

  /** Stripping `x + " " + value` (and a possible newline) only removes leading blanks, before the word at `k`. */
  lemma {:induction false} StripWordLine(x: string, value: string, tail: string, k: nat) returns (a: nat)
    requires k < |x| && !IsSpace(x[k]) && value != "" && NoSpace(value)
    requires tail == "" || tail == "\n"
    ensures a <= k && Strip(x + " " + value + tail) == x[a..] + " " + value
  {
    RStripTail(x + " " + value, tail);
    a := LStripWord(x, value, k);
  }

  /** A line `x + " " + value` (and a possible newline), with the name inside `x`, reads back as `value`. */
  lemma {:induction false} ReadBackWord(x: string, name: string, value: string, tail: string, k: nat)
    requires IsAt(x, name, k) && name != "" && NoSpace(name) && value != "" && NoSpace(value)
    requires tail == "" || tail == "\n"
    ensures CardValue([x + " " + value + tail], name) == Ok(Some(value))
  {
    var out := x + " " + value + tail;
    assert !IsSpace(x[k]) by { assert x[k] == name[0]; }
    var a := StripWordLine(x, value, tail, k);
    var t := Strip(out);
    assert IsAt(t, name, k - a) by {
      assert t[k - a..k - a + |name|] == x[k..k + |name|];
    }
    ContainsAt(t, name, k - a);
    LastWordAfterSpace(x[a..], value);
    StripEmptyIffBlank(out);
  }

  /**
   * The value `make_card` writes is what `get_value_from_card` reads back: a one-occurrence
   * rewrite of a line whose field name has no whitespace leaves the value as the last token
   * of a line that still mentions the name.
   */
  lemma {:induction false} RewriteReadBack(line: string, name: string, value: string, k: nat)
    requires line != "" && !StartsWith(line, "#")
    requires name != "" && NoSpace(name) && value != "" && NoSpace(value)
    requires Search(line, name, 0) == Some(k)
    requires var g := Group(line, name, k);
      |g| > 0 && forall j :: j != k + |name| + 1 ==> !IsAt(line, g, j)
    ensures RewriteLine(line, name, value).Ok?
    ensures CardValue([RewriteLine(line, name, value).value], name) == Ok(Some(value))
  {
    RewriteTail(line, name, value, k);
    ReadBackWord(line[..k + |name|], name, value, line[LineEnd(line)..], k);
  }

  // ---------------------------------------------------------------------------
  // make_card
  // ---------------------------------------------------------------------------

  /** The inner loop of `make_card`: one field's pass over the card's lines, in place. Returns the error that stopped it, if any. */
  method RewriteCard(card: array<string>, name: string, value: string) returns (err: Option<Error>)
    modifies card
    ensures err.None? <==> RewriteLines(old(card[..]), name, value).Ok?
    ensures err.Some? ==> RewriteLines(old(card[..]), name, value) == Err(err.value)
    ensures err.None? ==> card[..] == RewriteLines(old(card[..]), name, value).value
  {
    ghost var start := card[..];
    var i := 0;
    while i < card.Length
      invariant 0 <= i <= card.Length
      invariant RewriteLines(start[..i], name, value) == Ok(card[..i])
      invariant forall j :: i <= j < card.Length ==> card[j] == start[j]
    {
      var line := card[i];
      assert line == start[i];
      var r := RewriteLine(line, name, value);
      if r.Err? {
        RewriteLinesStop(start, name, value, i);
        return Some(r.error);
      }
      ghost var done := card[..i];
      RewriteLinesStep(start, name, value, i, done);
      card[i] := r.value;
      assert card[..i + 1] == done + [r.value];
      i := i + 1;
    }
    assert start[..i] == start;
    assert card[..i] == card[..];
    return None;
  }

  /**
   * `make_card`: rewrites the lines of the card template in place, field by field, and
   * returns the text written to the new card; on an error nothing is written.
   */
  method MakeCard(card: array<string>, fields: seq<(string, string)>) returns (out: Result<string>)
    modifies card
    ensures out == (var t :- ApplyFields(old(card[..]), fields); Ok(Join("", t)))
    ensures out.Ok? ==> card[..] == ApplyFields(old(card[..]), fields).value
  {
    ghost var template := card[..];
    for f := 0 to |fields|
      invariant ApplyFields(template, fields[..f]) == Ok(card[..])
    {
      ghost var cur := card[..];
      var err := RewriteCard(card, fields[f].0, fields[f].1);
      if err.Some? {
        ApplyFieldsStop(template, fields, f, cur);
        return Err(err.value);
      }
      ApplyFieldsStep(template, fields, f, cur);
    }
    assert fields[..|fields|] == fields;
    out := Ok(Join("", card[..]));
  }

  // ---------------------------------------------------------------------------
  // The fields and the new card's name in `run_mg5`
  // ---------------------------------------------------------------------------

  /** An option's value as `argparse` leaves it: an `int` (for `type=int`), a string, or None. */
  datatype Value = IntValue(i: int) | StrValue(s: string) | NoValue

  /** Python truthiness: zero, the empty string and None are false. */
  predicate IsTruthy(v: Value)
  {
    match v
    case IntValue(i) => i != 0
    case StrValue(s) => s != ""
    case NoValue => false
  }

  /** `str(value)` for the values that pass the truthiness filter. */
  function Render(v: Value): string
  {
    match v
    case IntValue(i) => IntToString(i)
    case StrValue(s) => s
    case NoValue => "None"
  }

  /** An optional `int` option. */
  function IntOption(o: Option<int>): Value
  {
    if o.Some? then IntValue(o.value) else NoValue
  }

  /** `{k: v for k in names if v}`, rendered: the truthy entries, in the order of the names. */
  function TruthyFields(vars: seq<(string, Value)>): (r: seq<(string, string)>)
    ensures |r| <= |vars|
  {
    if vars == [] then []
    else
      var rest := TruthyFields(vars[1..]);
      if IsTruthy(vars[0].1) then [(vars[0].0, Render(vars[0].1))] + rest else rest
  }

  /** A field is set exactly when its variable is truthy, and to that variable's rendering. */
  lemma {:induction false} TruthyFieldsMember(vars: seq<(string, Value)>, name: string, v: string)
    ensures (name, v) in TruthyFields(vars) <==>
      exists i :: 0 <= i < |vars| && vars[i].0 == name && IsTruthy(vars[i].1) && Render(vars[i].1) == v
    decreases |vars|
  {
    if vars != [] {
      TruthyFieldsMember(vars[1..], name, v);
      if exists i :: 0 <= i < |vars[1..]| && vars[1..][i].0 == name && IsTruthy(vars[1..][i].1) && Render(vars[1..][i].1) == v {
        var i :| 0 <= i < |vars[1..]| && vars[1..][i].0 == name && IsTruthy(vars[1..][i].1) && Render(vars[1..][i].1) == v;
        assert vars[i + 1] == vars[1..][i];
      }
      if exists i :: 0 <= i < |vars| && vars[i].0 == name && IsTruthy(vars[i].1) && Render(vars[i].1) == v {
        var i :| 0 <= i < |vars| && vars[i].0 == name && IsTruthy(vars[i].1) && Render(vars[i].1) == v;
        if i > 0 {
          assert vars[1..][i - 1] == vars[i];
        }
      }
    }
  }

  /** For a name that labels only entry `i`, the field is set exactly when that entry is truthy. */
  lemma {:induction false} TruthyFieldAt(vars: seq<(string, Value)>, i: int, v: string)
    requires 0 <= i < |vars| && forall j :: 0 <= j < |vars| && j != i ==> vars[j].0 != vars[i].0
    ensures (vars[i].0, v) in TruthyFields(vars) <==> IsTruthy(vars[i].1) && Render(vars[i].1) == v
  {
    TruthyFieldsMember(vars, vars[i].0, v);
  }

  /**
   * The fields `run_mg5` sets, from the options `-n` and `--seed` (integers), `--pythia8`
   * and `--hepmc` (both required), where `hepmcAbs` is `os.path.abspath(args.hepmc)`.
   */
  function RunFields(nevents: Option<int>, iseed: Option<int>, pythia8: string, hepmcAbs: string): seq<(string, string)>
  {
    TruthyFields(RunVars(nevents, iseed, pythia8, hepmcAbs))
  }

  /** The variables behind the fields, listed as the `fields` dictionary literal writes them (Python 2 iterates it in hash order). */
  function RunVars(nevents: Option<int>, iseed: Option<int>, pythia8: string, hepmcAbs: string): (r: seq<(string, Value)>)
    ensures |r| == 5 && r[0].0 == "nevents" && r[1].0 == "iseed" && r[2].0 == "pythia8_path"
    ensures r[3].0 == "extrapaths" && r[4].0 == "includepaths"
  {
    var extrapaths := "../lib " + PathJoin(hepmcAbs, "lib");
    var includepaths := PathJoin(hepmcAbs, "include");
    [("nevents", IntOption(nevents)), ("iseed", IntOption(iseed)), ("pythia8_path", StrValue(pythia8)),
     ("extrapaths", StrValue(extrapaths)), ("includepaths", StrValue(includepaths))]
  }

  /** Each field is named once, so it is set exactly when its own variable is truthy. */
  lemma {:induction false} RunVarAt(nevents: Option<int>, iseed: Option<int>, pythia8: string, hepmcAbs: string, i: int, v: string)
    requires 0 <= i < 5
    ensures var vars := RunVars(nevents, iseed, pythia8, hepmcAbs);
      (vars[i].0, v) in RunFields(nevents, iseed, pythia8, hepmcAbs) <==> IsTruthy(vars[i].1) && Render(vars[i].1) == v
  {
    var vars := RunVars(nevents, iseed, pythia8, hepmcAbs);
    forall j | 0 <= j < |vars| && j != i
      ensures vars[j].0 != vars[i].0
    {
      RunVarsDistinct(vars, i, j);
    }
    TruthyFieldAt(vars, i, v);
  }

  /** The five variable names differ in their second character. */
  lemma {:induction false} RunVarsDistinct(vars: seq<(string, Value)>, i: int, j: int)
    requires |vars| == 5 && vars[0].0 == "nevents" && vars[1].0 == "iseed" && vars[2].0 == "pythia8_path"
    requires vars[3].0 == "extrapaths" && vars[4].0 == "includepaths"
    requires 0 <= i < 5 && 0 <= j < 5 && i != j
    ensures vars[i].0 != vars[j].0
  {
    var second := [vars[0].0[1], vars[1].0[1], vars[2].0[1], vars[3].0[1], vars[4].0[1]];
    assert second == ['e', 's', 'y', 'x', 'n'];
    assert second[j] == vars[j].0[1] && second[i] == vars[i].0[1];
  }

  /**
   * The HepMC paths are always set; the event count and the seed exactly when given and
   * non-zero, to their decimal text; the Pythia 8 path exactly when it is not empty.
   */
  lemma {:induction false} RunFieldsContents(nevents: Option<int>, iseed: Option<int>, pythia8: string, hepmcAbs: string)
    ensures ("extrapaths", "../lib " + PathJoin(hepmcAbs, "lib")) in RunFields(nevents, iseed, pythia8, hepmcAbs)
    ensures ("includepaths", PathJoin(hepmcAbs, "include")) in RunFields(nevents, iseed, pythia8, hepmcAbs)
    ensures forall v :: ("nevents", v) in RunFields(nevents, iseed, pythia8, hepmcAbs) <==>
      nevents.Some? && nevents.value != 0 && v == IntToString(nevents.value)
    ensures forall v :: ("iseed", v) in RunFields(nevents, iseed, pythia8, hepmcAbs) <==>
      iseed.Some? && iseed.value != 0 && v == IntToString(iseed.value)
    ensures forall v :: ("pythia8_path", v) in RunFields(nevents, iseed, pythia8, hepmcAbs) <==>
      pythia8 != "" && v == pythia8
  {
    RunVarAt(nevents, iseed, pythia8, hepmcAbs, 3, "../lib " + PathJoin(hepmcAbs, "lib"));
    RunVarAt(nevents, iseed, pythia8, hepmcAbs, 4, PathJoin(hepmcAbs, "include"));
    forall v ensures ("nevents", v) in RunFields(nevents, iseed, pythia8, hepmcAbs) <==> nevents.Some? && nevents.value != 0 && v == IntToString(nevents.value) {
      RunVarAt(nevents, iseed, pythia8, hepmcAbs, 0, v);
    }
    forall v ensures ("iseed", v) in RunFields(nevents, iseed, pythia8, hepmcAbs) <==> iseed.Some? && iseed.value != 0 && v == IntToString(iseed.value) {
      RunVarAt(nevents, iseed, pythia8, hepmcAbs, 1, v);
    }
    forall v ensures ("pythia8_path", v) in RunFields(nevents, iseed, pythia8, hepmcAbs) <==> pythia8 != "" && v == pythia8 {
      RunVarAt(nevents, iseed, pythia8, hepmcAbs, 2, v);
    }
  }

  /** Every failure of `make_card`'s loops is the AttributeError of `None.group`. */
  lemma {:induction false} ApplyFieldsErrKind(lines: seq<string>, fields: seq<(string, string)>)
    requires ApplyFields(lines, fields).Err?
    ensures ApplyFields(lines, fields).error.AttributeError?
    decreases |fields|
  {
    var next := RewriteLines(lines, fields[0].0, fields[0].1);
    if next.Err? {
      RewriteLinesErrKind(lines, fields[0].0, fields[0].1);
    } else {
      ApplyFieldsErrKind(next.value, fields[1..]);
    }
  }

  // ---------------------------------------------------------------------------
  // run_mg5 up to the MG5_aMC call
  // ---------------------------------------------------------------------------

  /**
   * What `run_mg5`'s parser keeps of the arguments it is given: the template card, `-n`,
   * `--seed`, `--pythia8`, `os.path.abspath(--hepmc)`, `--dry` and `os.path.abspath(--exe)`
   * (argparse keeps the last `--exe`, so in a worker the one it appends).
   */
  datatype RunArgs = RunArgs(card: string, nevents: Option<int>, iseed: Option<int>, pythia8: string,
                             hepmcAbs: string, dry: bool, exeAbs: string)

  /** The five variable names `run_mg5` may set in the card. */
  const RunNames: seq<string> := ["nevents", "iseed", "pythia8_path", "extrapaths", "includepaths"]

  /** A line no field of `run_mg5` touches: empty, a comment, or mentioning none of the five names. */
  predicate Untouched(line: string)
  {
    line == "" || StartsWith(line, "#") || forall k :: 0 <= k < |RunNames| ==> !Contains(line, RunNames[k])
  }

  /** Every field `run_mg5` sets is named by one of the five names. */
  lemma {:induction false} RunFieldNames(nevents: Option<int>, iseed: Option<int>, pythia8: string, hepmcAbs: string, j: int)
    requires 0 <= j < |RunFields(nevents, iseed, pythia8, hepmcAbs)|
    ensures exists k :: 0 <= k < |RunNames| && RunFields(nevents, iseed, pythia8, hepmcAbs)[j].0 == RunNames[k]
  {
    var vars := RunVars(nevents, iseed, pythia8, hepmcAbs);
    TruthyFieldNamed(vars, j);
    var i :| 0 <= i < |vars| && vars[i].0 == TruthyFields(vars)[j].0;
    RunVarNamed(nevents, iseed, pythia8, hepmcAbs, i);
  }

  /** The `i`-th variable is named by the `i`-th of the five names. */
  lemma {:induction false} RunVarNamed(nevents: Option<int>, iseed: Option<int>, pythia8: string, hepmcAbs: string, i: int)
    requires 0 <= i < 5
    ensures RunVars(nevents, iseed, pythia8, hepmcAbs)[i].0 == RunNames[i]
  {
    if i == 0 {
    } else if i == 1 {
    } else if i == 2 {
    } else if i == 3 {
    } else {
    }
  }

  /** Every field is named after one of the variables. */
  lemma {:induction false} TruthyFieldNamed(vars: seq<(string, Value)>, j: int)
    requires 0 <= j < |TruthyFields(vars)|
    ensures exists i :: 0 <= i < |vars| && vars[i].0 == TruthyFields(vars)[j].0
  {
    var f := TruthyFields(vars)[j];
    assert f in TruthyFields(vars);
    TruthyFieldsMember(vars, f.0, f.1);
  }

  /** Lines no field touches come through `make_card` unchanged. */
  lemma {:induction false} UntouchedKept(lines: seq<string>, p: RunArgs)
    requires ApplyFields(lines, RunFields(p.nevents, p.iseed, p.pythia8, p.hepmcAbs)).Ok?
    ensures var out := ApplyFields(lines, RunFields(p.nevents, p.iseed, p.pythia8, p.hepmcAbs)).value;
      forall i :: 0 <= i < |lines| && Untouched(lines[i]) ==> out[i] == lines[i]
  {
    var fields := RunFields(p.nevents, p.iseed, p.pythia8, p.hepmcAbs);
    forall i | 0 <= i < |lines| && Untouched(lines[i])
      ensures ApplyFields(lines, fields).value[i] == lines[i]
    {
      if !(lines[i] == "" || StartsWith(lines[i], "#")) {
        forall j | 0 <= j < |fields|
          ensures !Contains(lines[i], fields[j].0)
        {
          RunFieldNames(p.nevents, p.iseed, p.pythia8, p.hepmcAbs, j);
        }
      }
      ApplyFieldsKeeps(lines, fields, i);
    }
  }

  /**
   * The lines of the card `run_mg5` writes: `make_card` on the template's lines with the
   * fields of the parsed options. The template is None when it cannot be opened, and `open`
   * raises IOError; every failure of the rewrite is the AttributeError of `None.group`.
   * Otherwise the new card has as many lines as the template, and those no field touches
   * are unchanged.
   */
  function NewCardLines(template: Option<seq<string>>, p: RunArgs): (r: Result<seq<string>>)
    ensures template.None? ==> r == Err(IOError(p.card))
    ensures template.Some? && r.Err? ==> r.error.AttributeError?
    ensures r.Ok? ==> template.Some? && |r.value| == |template.value|
    ensures r.Ok? ==> forall i :: 0 <= i < |r.value| && Untouched(template.value[i]) ==> r.value[i] == template.value[i]
  {
    match template
    case None => Err(IOError(p.card))
    case Some(lines) =>
      var fields := RunFields(p.nevents, p.iseed, p.pythia8, p.hepmcAbs);
      var r := ApplyFields(lines, fields);
      if r.Err? then
        ApplyFieldsErrKind(lines, fields);
        r
      else
        UntouchedKept(lines, p);
        r
  }

  /** `make_card` as `run_mg5` calls it: the template opened, then rewritten in an array. */
  method MakeRunCard(template: Option<seq<string>>, p: RunArgs) returns (r: Result<seq<string>>)
    ensures r == NewCardLines(template, p)
  {
    if template.None? {
      return Err(IOError(p.card));
    }
    var lines := template.value;
    var card := new string[|lines|](i requires 0 <= i < |lines| => lines[i]);
    assert card[..] == lines;
    var text := MakeCard(card, RunFields(p.nevents, p.iseed, p.pythia8, p.hepmcAbs));
    if text.Err? {
      return Err(text.error);
    }
    r := Ok(card[..]);
  }

  /** `args.card.replace(".txt", "_new.txt")`. */
  function NewCard(card: string): string { ReplaceAll(card, ".txt", "_new.txt") }

  /** The new card differs from the template exactly when the template's name contains `.txt`. */
  lemma {:induction false} NewCardDiffers(card: string)
    ensures NewCard(card) != card <==> Contains(card, ".txt")
  {
    ReplaceByLongerChanges(card, ".txt", "_new.txt");
  }
}
