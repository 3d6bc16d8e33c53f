/**
 * Reading an MG5_aMC@NLO input card: `get_value_from_card`, which both the MG5 submitter and
 * the MG5 worker script use to find the process name (`output`) and the beam energy
 * (`ebeam1`), and the centre-of-mass energy in TeV derived from the latter.
 */
module Cards {
  import opened Wrappers
  import opened Text

  /** The first line (of the card's lines, each possibly ending in a newline) that mentions `field`. */
  predicate FirstMention(lines: seq<string>, field: string, i: int)
  {
    0 <= i < |lines| && Contains(Strip(lines[i]), field) &&
    forall j :: 0 <= j < i ==> !Contains(Strip(lines[j]), field)
  }

  /**
   * `get_value_from_card`: the last whitespace-separated token of the first line whose
   * stripped text contains `field`, or None when no line does. A matching blank line (only
   * possible for the empty field) makes `split()[-1]` raise IndexError.
   */
  function CardValue(lines: seq<string>, field: string): (r: Result<Option<string>>)
    ensures r.Ok? && r.value.Some? ==> |r.value.value| > 0 && NoSpace(r.value.value)
    ensures r.Err? ==> field == [] && r.error == IndexError
  {
    if lines == [] then Ok(None)
    else if Contains(Strip(lines[0]), field) then
      (ContainsNonEmpty(Strip(lines[0]), field);
       StripEmptyIffBlank(lines[0]);
       var t :- LastToken(lines[0]);
       Ok(Some(t)))
    else CardValue(lines[1..], field)
  }

  /**
   * A string containing a non-empty pattern is not empty: a card line that mentions a field
   * name has a token for `split()[-1]` (here) and a character for the rewrite (`mg5_card.dfy`).
   */
  lemma {:induction false} ContainsNonEmpty(s: string, p: string)
    ensures Contains(s, p) && |p| > 0 ==> s != []
  {
  }

  /** The value comes from the first line that mentions the field, and from no other. */
  lemma {:induction false} CardValueAt(lines: seq<string>, field: string, i: int)
    requires FirstMention(lines, field, i)
    ensures CardValue(lines, field) == (var t :- LastToken(lines[i]); Ok(Some(t)))
    decreases i
  {
    if i > 0 {
      assert FirstMention(lines[1..], field, i - 1) by {
        forall j | 0 <= j < i - 1 ensures !Contains(Strip(lines[1..][j]), field) {
          assert lines[1..][j] == lines[j + 1];
        }
      }
      CardValueAt(lines[1..], field, i - 1);
    }
  }

  /** None exactly when no line mentions the field. */
  lemma {:induction false} CardValueNone(lines: seq<string>, field: string)
    ensures CardValue(lines, field) == Ok(None) <==> forall i :: 0 <= i < |lines| ==> !Contains(Strip(lines[i]), field)
    decreases |lines|
  {
    if lines != [] {
      CardValueNone(lines[1..], field);
      if !Contains(Strip(lines[0]), field) {
        assert forall i :: 1 <= i < |lines| ==> lines[i] == lines[1..][i - 1];
      }
    }
  }

  /** Lines before the first mention do not matter. */
  lemma {:induction false} CardValueSkip(pre: seq<string>, rest: seq<string>, field: string)
    requires forall j :: 0 <= j < |pre| ==> !Contains(Strip(pre[j]), field)
    ensures CardValue(pre + rest, field) == CardValue(rest, field)
    decreases |pre|
  {
    if pre != [] {
      assert (pre + rest)[1..] == pre[1..] + rest;
      CardValueSkip(pre[1..], rest, field);
    } else {
      assert pre + rest == rest;
    }
  }

  /** `get_value_from_card`: a loop over the card's lines that returns at the first mention. */
  method GetValueFromCard(lines: seq<string>, field: string) returns (r: Result<Option<string>>)
    ensures r == CardValue(lines, field)
  {
    var k := 0;
    while k < |lines|
      invariant 0 <= k <= |lines|
      invariant CardValue(lines[k..], field) == CardValue(lines, field)
    {
      assert lines[k..][1..] == lines[k + 1..];
      var line := lines[k];
      if Contains(Strip(line), field) {
        var t := LastToken(line);
        if t.Err? {
          r := Err(t.error);
        } else {
          r := Ok(Some(t.value));
        }
        return;
      }
      k := k + 1;
    }
    r := Ok(None);
  }

  /**
   * The centre-of-mass energy in TeV for a symmetric collider, `int(ebeam1) * 2 / 1000`
   * with Python 2 integer (floor) division. `int(None)` raises TypeError and a token that is
   * not an integer literal ValueError.
   */
  function EnergyTeV(ebeam1: Option<string>): (r: Result<int>)
    ensures ebeam1.None? ==> r.Err? && r.error.TypeError?
    ensures ebeam1.Some? && ParseInt(ebeam1.value).None? ==> r.Err? && r.error.ValueError?
    ensures ebeam1.Some? && ParseInt(ebeam1.value).Some? ==>
      r.Ok? && r.value * 1000 <= 2 * ParseInt(ebeam1.value).value < (r.value + 1) * 1000
  {
    if ebeam1.None? then Err(TypeError("int() argument must be a string or a number, not 'NoneType'"))
    else
      match ParseInt(ebeam1.value)
      case None => Err(ValueError("invalid literal for int() with base 10"))
      case Some(n) => Ok(n * 2 / 1000)
  }

  /** Two 6.5 TeV beams make 13 TeV; an energy in GeV with a fraction is rejected. */
  lemma {:induction false} EnergyExamples()
    ensures EnergyTeV(Some("6500")) == Ok(13)
    ensures EnergyTeV(Some("4000")) == Ok(8)
    ensures EnergyTeV(Some("6500.0")).Err?
  {
    assert AllDigits("6500") && DigitsValue("6500") == 6500 by {
      assert "6500"[..3] == "650" && "650"[..2] == "65" && "65"[..1] == "6" && "6"[..0] == "";
    }
    assert AllDigits("4000") && DigitsValue("4000") == 4000 by {
      assert "4000"[..3] == "400" && "400"[..2] == "40" && "40"[..1] == "4" && "4"[..0] == "";
    }
    assert !IsDigit("6500.0"[4]);
  }

  /** A rendered integer beam energy is read back exactly. */
  lemma {:induction false} EnergyOfRendered(e: int)
    ensures EnergyTeV(Some(IntToString(e))) == Ok(e * 2 / 1000)
  {
    ParseIntOfIntToString(e);
  }
}
