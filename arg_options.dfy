/**
 * Reading and overwriting the value that follows a flag in a flat argument list such as
 * `["--card", "x.cmnd", "--hepmc", "-n", "10"]`.
 *
 * The tolerant helpers are shared, letter for letter, by the Pythia HTCondor submitter,
 * the Pythia PBS submitter and the Pythia worker script; the strict helpers belong to the
 * legacy Pythia submitter. `set_option_in_args` edits its list in place; here it returns
 * the edited list and its contract says which positions changed.
 */
module ArgOptions {
  import opened Wrappers
  import opened Text
  import opened Lists

  /** A token that looks like a flag. */
  predicate IsFlagToken(t: string) { StartsWith(t, "-") }

  /** Python truthiness of an optional string: `None` and `""` are false. */
  predicate Truthy(v: Option<string>) { v.Some? && v.value != "" }

  /** Where the value of `flag` sits: just after its first occurrence. */
  function ValuePos(args: seq<string>, flag: string): nat
    requires flag in args
  {
    IndexOf(args, flag) + 1
  }

  // ---------------------------------------------------------------------------
  // Tolerant variant
  // ---------------------------------------------------------------------------

  /**
   * `get_option_in_args`: KeyError when the flag is absent; None when the flag is the last
   * token or the token after its first occurrence looks like a flag; otherwise that token.
   */
  function GetOption(args: seq<string>, flag: string): (r: Result<Option<string>>)
    ensures r.Err? <==> flag !in args
    ensures r.Err? ==> r.error == KeyError(flag)
    ensures r.Ok? ==>
      (r.value.None? <==>
        args[|args| - 1] == flag || (ValuePos(args, flag) < |args| && IsFlagToken(args[ValuePos(args, flag)])))
    ensures r.Ok? && r.value.Some? ==>
      ValuePos(args, flag) < |args| && r.value.value == args[ValuePos(args, flag)] && !IsFlagToken(r.value.value)
  {
    if flag !in args then Err(KeyError(flag))
    else if args[|args| - 1] == flag then Ok(None)
    else
      var v := args[ValuePos(args, flag)];
      if IsFlagToken(v) then Ok(None) else Ok(Some(v))
  }

  /**
   * `set_option_in_args`. It overwrites an existing (truthy) value, appends the value when
   * the flag is the last token, inserts it when the next token looks like a flag, and
   * otherwise (the next token is `""`) leaves the list alone. KeyError when the flag is absent.
   */
  function SetOption(args: seq<string>, flag: string, value: string): (r: Result<seq<string>>)
    ensures r.Err? <==> flag !in args
    ensures r.Err? ==> r.error == KeyError(flag)
    // an existing value: exactly that token is replaced
    ensures r.Ok? && Truthy(GetOption(args, flag).value) ==>
      var p := ValuePos(args, flag);
      p < |args| && |r.value| == |args| && r.value[p] == value &&
      forall j :: 0 <= j < |args| && j != p ==> r.value[j] == args[j]
    // the flag is the last token: the value is appended
    ensures r.Ok? && !Truthy(GetOption(args, flag).value) && args[|args| - 1] == flag ==>
      |r.value| == |args| + 1 && r.value[..|args|] == args && r.value[|args|] == value
    // the next token is a flag: the value is inserted before it
    ensures r.Ok? && !Truthy(GetOption(args, flag).value) && args[|args| - 1] != flag &&
            IsFlagToken(args[ValuePos(args, flag)]) ==>
      var p := ValuePos(args, flag);
      |r.value| == |args| + 1 && r.value[..p] == args[..p] && r.value[p] == value &&
      r.value[p + 1..] == args[p..]
    // the next token is the empty string: nothing changes
    ensures r.Ok? && !Truthy(GetOption(args, flag).value) && args[|args| - 1] != flag &&
            !IsFlagToken(args[ValuePos(args, flag)]) ==>
      args[ValuePos(args, flag)] == "" && r.value == args
  {
    var g :- GetOption(args, flag);
    var p := ValuePos(args, flag);
    if Truthy(g) then Ok(args[p := value])
    else if args[|args| - 1] == flag then Ok(args + [value])
    else if IsFlagToken(args[p]) then Ok(args[..p] + [value] + args[p..])
    else Ok(args)
  }

  /** What `get_option_in_args` reads for a token that sits just after the flag. */
  function ReadValue(token: string): (r: Option<string>)
    ensures r.None? <==> IsFlagToken(token)
    ensures r.Some? ==> r.value == token
  {
    if IsFlagToken(token) then None else Some(token)
  }

  /**
   * When setting `value` reads back: the value is a non-empty non-flag token different from
   * the flag, the token after the flag is not `""`, and the flag does not occur both earlier
   * and as the last token.
   */
  predicate SetReadsBack(args: seq<string>, flag: string, value: string)
  {
    flag in args && value != "" && !IsFlagToken(value) && value != flag &&
    (args[|args| - 1] == flag ==> IndexOf(args, flag) == |args| - 1) &&
    (ValuePos(args, flag) < |args| ==> args[ValuePos(args, flag)] != "")
  }

  /** Setting a flag's value and reading it back gives the value, under `SetReadsBack`. */
  lemma {:induction false} GetAfterSet(args: seq<string>, flag: string, value: string)
    requires SetReadsBack(args, flag, value)
    ensures SetOption(args, flag, value).Ok?
    ensures GetOption(SetOption(args, flag, value).value, flag) == Ok(Some(value))
  {
    var r := SetOption(args, flag, value).value;
    var i := IndexOf(args, flag);
    assert r[i] == flag;
    assert forall k :: 0 <= k < i ==> r[k] == args[k];
    assert IndexOf(r, flag) == i;
  }

  /** A flag that is both the last token and repeated earlier defeats the round trip. */
  lemma {:induction false} RepeatedLastFlagDefeatsSet()
    ensures SetOption(["--hepmc", "a", "--hepmc"], "--hepmc", "b") == Ok(["--hepmc", "a", "--hepmc", "b"])
    ensures GetOption(["--hepmc", "a", "--hepmc", "b"], "--hepmc") == Ok(Some("a"))
  {
    var args := ["--hepmc", "a", "--hepmc"];
    assert IndexOf(args, "--hepmc") == 0;
    assert GetOption(args, "--hepmc") == Ok(None);
    var r := ["--hepmc", "a", "--hepmc", "b"];
    assert args + ["b"] == r;
    assert SetOption(args, "--hepmc", "b") == Ok(args + ["b"]);
    assert |r[3]| != |"--hepmc"|;
    assert "a"[..1] == "a" && "a"[0] != "-"[0];
    assert IndexOf(r, "--hepmc") == 0;
  }

  /** An empty token after the flag makes the setter a no-op. */
  lemma {:induction false} EmptyValueDefeatsSet()
    ensures SetOption(["--lhe", ""], "--lhe", "b") == Ok(["--lhe", ""])
    ensures GetOption(["--lhe", ""], "--lhe") == Ok(Some(""))
  {
    assert IndexOf(["--lhe", ""], "--lhe") == 0;
  }

  /**
   * Setting a flag that occurs before a trailing run starting with a flag token leaves that
   * run in place at the end of the list: the `--seed <ind>` appended to a job's arguments
   * survives every later `set_option_in_args` on an output flag.
   */
  lemma {:induction false} SetKeepsTrailingRun(pre: seq<string>, suf: seq<string>, flag: string, value: string)
    requires flag in pre && |suf| > 0 && IsFlagToken(suf[0]) && suf[|suf| - 1] != flag
    ensures SetOption(pre + suf, flag, value).Ok?
    ensures var r := SetOption(pre + suf, flag, value).value;
      |r| >= |suf| && r[|r| - |suf|..] == suf
  {
    var args := pre + suf;
    IndexOfPrefix(pre, suf, flag);
    var p := ValuePos(args, flag);
    assert p <= |pre|;
    assert p == |pre| ==> args[p] == suf[0];
    var r := SetOption(args, flag, value).value;
    if Truthy(GetOption(args, flag).value) {
      ReplacedKeepsTail(pre, suf, r, p);
    } else if IsFlagToken(args[p]) {
      InsertedKeepsTail(pre, suf, r, p);
    } else {
      assert r == args;
    }
  }

  /** Replacing one token before `suf` leaves `suf` at the end. */
  lemma {:induction false} ReplacedKeepsTail(pre: seq<string>, suf: seq<string>, r: seq<string>, p: int)
    requires 0 <= p < |pre| && |r| == |pre + suf|
    requires forall j :: 0 <= j < |pre + suf| && j != p ==> r[j] == (pre + suf)[j]
    ensures |r| >= |suf| && r[|r| - |suf|..] == suf
  {
    forall j | 0 <= j < |suf|
      ensures r[|r| - |suf|..][j] == suf[j]
    {
      var q := |pre| + j;
      assert r[q] == (pre + suf)[q];
    }
  }

  /** Inserting one token at or before the start of `suf` leaves `suf` at the end. */
  lemma {:induction false} InsertedKeepsTail(pre: seq<string>, suf: seq<string>, r: seq<string>, p: int)
    requires 0 <= p <= |pre| && |r| == |pre + suf| + 1 && r[p + 1..] == (pre + suf)[p..]
    ensures |r| >= |suf| && r[|r| - |suf|..] == suf
  {
    forall j | 0 <= j < |suf|
      ensures r[|r| - |suf|..][j] == suf[j]
    {
      var q := |pre| + j;
      assert r[p + 1..][q - p] == (pre + suf)[p..][q - p];
      assert r[|r| - |suf|..][j] == r[q + 1];
    }
  }

  /**
   * Setting a flag whose value reads back as a string: a non-empty value is replaced by the
   * new one, an empty one stays and the list is unchanged.
   */
  lemma {:induction false} SetPlacesValue(args: seq<string>, flag: string, value: string)
    requires flag in args && GetOption(args, flag).value.Some?
    ensures GetOption(args, flag).value.value != "" ==> value in SetOption(args, flag, value).value
    ensures GetOption(args, flag).value.value == "" ==> SetOption(args, flag, value).value == args
  {
    if GetOption(args, flag).value.value != "" {
      var r := SetOption(args, flag, value).value;
      assert r[ValuePos(args, flag)] == value;
    }
  }

  /**
   * Overwriting an existing value: the flag then reads back the new value, or None when the
   * new value looks like a flag.
   */
  lemma {:induction false} ReplaceReadBack(args: seq<string>, flag: string, value: string)
    requires flag in args && IsFlagToken(flag) && Truthy(GetOption(args, flag).value)
    ensures SetOption(args, flag, value).Ok?
    ensures GetOption(SetOption(args, flag, value).value, flag) == Ok(ReadValue(value))
  {
    var r := SetOption(args, flag, value).value;
    var i := IndexOf(args, flag);
    assert r[i] == flag;
    assert forall k :: 0 <= k < i ==> r[k] == args[k];
    assert IndexOf(r, flag) == i;
  }

  /** Setting never drops a flag-like token: only a non-flag value is overwritten. */
  lemma {:induction false} SetKeepsFlags(args: seq<string>, flag: string, value: string)
    requires flag in args
    ensures forall t :: t in args && IsFlagToken(t) ==> t in SetOption(args, flag, value).value
  {
    var r := SetOption(args, flag, value).value;
    var p := ValuePos(args, flag);
    forall t | t in args && IsFlagToken(t)
      ensures t in r
    {
      var k :| 0 <= k < |args| && args[k] == t;
      if Truthy(GetOption(args, flag).value) {
        assert k != p;
        assert r[k] == t;
      } else if args[|args| - 1] == flag {
        assert r[k] == t;
      } else if IsFlagToken(args[p]) {
        if k < p {
          assert r[k] == t;
        } else {
          assert r[k + 1] == t;
        }
      }
    }
  }

  /** Setting keeps the flag itself. */
  lemma {:induction false} SetKeepsFlag(args: seq<string>, flag: string, value: string)
    requires flag in args
    ensures flag in SetOption(args, flag, value).value
  {
    var r := SetOption(args, flag, value).value;
    assert r[IndexOf(args, flag)] == flag;
  }

  // ---------------------------------------------------------------------------
  // Strict variant (legacy Pythia submitter)
  // ---------------------------------------------------------------------------

  /** KeyError when the flag is absent, IndexError when it is last, else the next token. */
  function GetOptionStrict(args: seq<string>, flag: string): (r: Result<string>)
    ensures flag !in args ==> r == Err(KeyError(flag))
    ensures flag in args && ValuePos(args, flag) == |args| ==> r == Err(IndexError)
    ensures flag in args && ValuePos(args, flag) < |args| ==> r == Ok(args[ValuePos(args, flag)])
  {
    if flag !in args then Err(KeyError(flag))
    else if ValuePos(args, flag) == |args| then Err(IndexError)
    else Ok(args[ValuePos(args, flag)])
  }

  /** ValueError when the flag is absent (from `list.index`), IndexError when it is last. */
  function SetOptionStrict(args: seq<string>, flag: string, value: string): (r: Result<seq<string>>)
    ensures flag !in args ==> r.Err? && r.error.ValueError?
    ensures flag in args && ValuePos(args, flag) == |args| ==> r == Err(IndexError)
    ensures r.Ok? ==>
      var p := ValuePos(args, flag);
      p < |args| && |r.value| == |args| && r.value[p] == value &&
      forall j :: 0 <= j < |args| && j != p ==> r.value[j] == args[j]
  {
    var i :- Index(args, flag);
    if i + 1 == |args| then Err(IndexError) else Ok(args[i + 1 := value])
  }

  /** The strict setter fails exactly where the strict getter fails, and reading back gives the value. */
  lemma {:induction false} StrictGetAfterSet(args: seq<string>, flag: string, value: string)
    ensures SetOptionStrict(args, flag, value).Ok? <==> GetOptionStrict(args, flag).Ok?
    ensures SetOptionStrict(args, flag, value).Ok? ==>
      GetOptionStrict(SetOptionStrict(args, flag, value).value, flag) == Ok(value)
  {
    if SetOptionStrict(args, flag, value).Ok? {
      var r := SetOptionStrict(args, flag, value).value;
      var i := IndexOf(args, flag);
      assert r[i] == flag;
      assert forall k :: 0 <= k < i ==> r[k] == args[k];
      assert IndexOf(r, flag) == i;
    }
  }

  /**
   * Appending `[flag, v]` leaves an earlier occurrence of `flag` where it was, and makes
   * `v` the value of a flag that was absent.
   */
  lemma {:induction false} AppendedOption(args: seq<string>, flag: string, v: string)
    requires IsFlagToken(flag) && v != [] && v[0] != '-'
    ensures flag in args ==> IndexOf(args + [flag, v], flag) == IndexOf(args, flag)
    ensures flag !in args ==> GetOption(args + [flag, v], flag) == Ok(Some(v))
  {
    var r := args + [flag, v];
    if flag in args {
      IndexOfPrefix(args, [flag, v], flag);
    } else {
      IndexOfSuffix(args, [flag, v], flag);
      assert IndexOf([flag, v], flag) == 0;
      assert v[..1][0] == v[0];
      assert !IsFlagToken(v);
      assert r[|r| - 1] == v != flag;
      assert r[ValuePos(r, flag)] == v;
    }
  }
}
