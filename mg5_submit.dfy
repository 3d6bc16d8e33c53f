/**
 * The MG5_aMC@NLO HTCondor submitter: the checks it makes before writing anything, the
 * centre-of-mass energy it reads off the card, and the DAG it writes. Each job's node
 * forwards the parsed MG5 options as `--name value` pairs, after setting the seed to the
 * job ID and renaming the two options whose attribute name differs from their flag.
 *
 * The parsed options (`mg5_args.__dict__`) are a sequence of attributes in the order the
 * dictionary yields them; a value is None when it is falsy (None, False, 0, "") and
 * `Some(s)` when it is truthy and `str()` renders it as `s`.
 */
module Mg5Submit {
  import opened Wrappers
  import opened Text
  import opened Paths
  import opened Lists
  import opened ArgOptions
  import opened JobSpace
  import opened Dag
  import opened Cards
  import opened FileSystem

  // ---------------------------------------------------------------------------
  // Checks before any file is written
  // ---------------------------------------------------------------------------

  /** What the submitter derives from the card: the process name and the energy in TeV. */
  datatype Setup = Setup(channel: string, energy: int)

  /**
   * The checks of `submit_mc_jobs_htcondor` in order: the job-ID range, a card was given,
   * the card is a file; then the process name and the beam energy are read from the card.
   * A card without an `output` line leaves the channel None, and the first path built from
   * it raises AttributeError.
   */
  function Prepare(first: int, last: int, card: string, fs: Fs, cardLines: seq<string>): (r: Result<Setup>)
    ensures r.Ok? <==>
      1 <= first <= last && card != "" && IsFile(fs, card) &&
      CardValue(cardLines, "output").value.Some? && EnergyTeV(CardValue(cardLines, "ebeam1").value).Ok?
    ensures !(1 <= first <= last) ==> r.Err? && r == Err(CheckJobIdRange(first, last).error)
    ensures 1 <= first <= last && card == "" ==> r == Err(RuntimeError("You did not specify an input card!"))
    ensures 1 <= first <= last && card != "" && !IsFile(fs, card) ==>
      r == Err(RuntimeError("Input card " + card + " does not exist!"))
    ensures r.Ok? ==> CardValue(cardLines, "output") == Ok(Some(r.value.channel))
    ensures r.Ok? ==> EnergyTeV(CardValue(cardLines, "ebeam1").value) == Ok(r.value.energy)
  {
    var ok :- CheckJobIdRange(first, last);
    if card == "" then Err(RuntimeError("You did not specify an input card!"))
    else if !IsFile(fs, card) then Err(RuntimeError("Input card " + card + " does not exist!"))
    else
      var channel := CardValue(cardLines, "output").value;
      var energy :- EnergyTeV(CardValue(cardLines, "ebeam1").value);
      if channel.None? then Err(AttributeError("'NoneType' object has no attribute 'startswith'"))
      else Ok(Setup(channel.value, energy))
  }

  // ---------------------------------------------------------------------------
  // The parsed MG5 options
  // ---------------------------------------------------------------------------

  type Attr = (string, Option<string>)

  predicate HasKey(attrs: seq<Attr>, key: string) { exists i :: 0 <= i < |attrs| && attrs[i].0 == key }

  /** `mg5_args.<key> = v`: an existing attribute takes the new value, a new one goes last. */
  function SetAttr(attrs: seq<Attr>, key: string, v: Option<string>): (r: seq<Attr>)
    ensures HasKey(r, key)
    ensures HasKey(attrs, key) ==> |r| == |attrs|
    ensures HasKey(attrs, key) ==> forall i :: 0 <= i < |attrs| ==> r[i] == (if attrs[i].0 == key then (key, v) else attrs[i])
    ensures !HasKey(attrs, key) ==> r == attrs + [(key, v)]
  {
    if HasKey(attrs, key) then
      var r := seq(|attrs|, i requires 0 <= i < |attrs| => if attrs[i].0 == key then (key, v) else attrs[i]);
      var i :| 0 <= i < |attrs| && attrs[i].0 == key;
      assert r[i].0 == key;
      r
    else
      var r := attrs + [(key, v)];
      assert r[|attrs|].0 == key;
      r
  }

  /** Setting an attribute twice leaves the second value: the loop's reuse of `mg5_args` is harmless. */
  lemma {:induction false} SetAttrOverwrite(attrs: seq<Attr>, key: string, v1: Option<string>, v2: Option<string>)
    ensures SetAttr(SetAttr(attrs, key, v1), key, v2) == SetAttr(attrs, key, v2)
  {
  }

  /** The value `mg5_args.iseed = job_ind` stores: an int, falsy when it is 0. */
  function SeedValue(ind: int): Option<string> { if ind == 0 then None else Some(IntToString(ind)) }

  /** The `--<name> <value>` pairs of the attributes whose name and value are truthy, in order. */
  function AttrTokens(attrs: seq<Attr>): seq<string>
  {
    if attrs == [] then []
    else
      var a := attrs[|attrs| - 1];
      AttrTokens(attrs[..|attrs| - 1]) + (if a.0 != "" && Truthy(a.1) then ["--" + a.0, a.1.value] else [])
  }

  /** Every token is the flag or the value of a forwarded attribute. */
  lemma {:induction false} AttrTokensMember(attrs: seq<Attr>, x: string)
    requires x in AttrTokens(attrs)
    ensures exists i :: (0 <= i < |attrs| && attrs[i].0 != "" && Truthy(attrs[i].1) &&
      (x == "--" + attrs[i].0 || x == attrs[i].1.value))
    decreases |attrs|
  {
    var front := attrs[..|attrs| - 1];
    var a := attrs[|attrs| - 1];
    if x in AttrTokens(front) {
      AttrTokensMember(front, x);
      var i :| 0 <= i < |front| && front[i].0 != "" && Truthy(front[i].1) &&
        (x == "--" + front[i].0 || x == front[i].1.value);
      assert attrs[i] == front[i];
    } else {
      assert attrs[|attrs| - 1] == a;
    }
  }

  /**
   * Only truthy attributes are forwarded: the flag `--<key>` appears exactly when some
   * attribute `key` is truthy (no forwarded value being that flag).
   */
  lemma {:induction false} AttrFlagPresent(attrs: seq<Attr>, key: string)
    requires key != ""
    requires forall i :: 0 <= i < |attrs| && Truthy(attrs[i].1) ==> attrs[i].1.value != "--" + key
    ensures "--" + key in AttrTokens(attrs) <==> exists i :: 0 <= i < |attrs| && attrs[i].0 == key && Truthy(attrs[i].1)
    decreases |attrs|
  {
    if attrs != [] {
      var front := attrs[..|attrs| - 1];
      var a := attrs[|attrs| - 1];
      AttrFlagPresent(front, key);
      if "--" + a.0 == "--" + key {
        ConcatCancelLeft("--", a.0, key);
      }
      if exists i :: 0 <= i < |front| && front[i].0 == key && Truthy(front[i].1) {
        var i :| 0 <= i < |front| && front[i].0 == key && Truthy(front[i].1);
        assert attrs[i] == front[i];
      }
      if exists i :: 0 <= i < |attrs| && attrs[i].0 == key && Truthy(attrs[i].1) {
        var i :| 0 <= i < |attrs| && attrs[i].0 == key && Truthy(attrs[i].1);
        if i < |front| {
          assert front[i] == attrs[i];
        }
      }
    }
  }

  /**
   * When every attribute named `key` holds the truthy `v`, the first `--<key>` token is
   * followed by `v` (no forwarded value being that flag).
   */
  lemma {:induction false} AttrFlagFollowedBy(attrs: seq<Attr>, key: string, v: string)
    requires key != "" && v != "" && HasKey(attrs, key)
    requires forall i :: 0 <= i < |attrs| && attrs[i].0 == key ==> attrs[i].1 == Some(v)
    requires forall i :: 0 <= i < |attrs| && Truthy(attrs[i].1) ==> attrs[i].1.value != "--" + key
    ensures "--" + key in AttrTokens(attrs)
    ensures IndexOf(AttrTokens(attrs), "--" + key) + 1 < |AttrTokens(attrs)|
    ensures AttrTokens(attrs)[IndexOf(AttrTokens(attrs), "--" + key) + 1] == v
    decreases |attrs|
  {
    var front := attrs[..|attrs| - 1];
    var a := attrs[|attrs| - 1];
    var t := AttrTokens(front);
    var all := AttrTokens(attrs);
    if HasKey(front, key) {
      AttrFlagFollowedBy(front, key, v);
      IndexOfPrefix(t, all[|t|..], "--" + key);
      assert all == t + all[|t|..];
    } else {
      assert a.0 == key;
      assert all == t + ["--" + key, v];
      if "--" + key in t {
        AttrTokensMember(front, "--" + key);
        var i :| 0 <= i < |front| && front[i].0 != "" && Truthy(front[i].1) &&
          ("--" + key == "--" + front[i].0 || "--" + key == front[i].1.value);
        assert attrs[i] == front[i];
        if "--" + key == "--" + front[i].0 {
          ConcatCancelLeft("--", key, front[i].0);
        }
        assert false;
      }
      IndexOfSuffix(t, ["--" + key, v], "--" + key);
    }
  }

  // ---------------------------------------------------------------------------
  // The options of one job
  // ---------------------------------------------------------------------------

  /** The fixed and per-run strings of the DAG writer. */
  datatype Mg5Config = Mg5Config(channel: string, oDir: string, condorFile: string, statusFile: string,
                                 logDir: string, dagFile: string)

  /** The options before the forwarded ones: output directory, copy-in and copy-out triples, `--args`. */
  function Staging(c: Mg5Config, copyIn: seq<(string, string)>, copyOut: seq<(string, string)>): seq<string>
  {
    ["--oDir", c.oDir] + Triples("--copyToLocal", copyIn) + Triples("--copyFromLocal", copyOut) + ["--args"]
  }

  /** `job_opts` before the renaming. */
  function BaseOptions(c: Mg5Config, copyIn: seq<(string, string)>, copyOut: seq<(string, string)>, attrs: seq<Attr>): seq<string>
  {
    Staging(c, copyIn, copyOut) + AttrTokens(attrs)
  }

  /** `xs[xs.index(flag)] = renamed`: the first `flag` becomes `renamed`, a ValueError when there is none. */
  function Rename(xs: seq<string>, flag: string, renamed: string): (r: Result<seq<string>>)
    ensures r.Err? <==> flag !in xs
    ensures r.Err? ==> r == Err(ValueError("list.index(x): x not in list"))
    ensures r.Ok? ==> |r.value| == |xs| && r.value[IndexOf(xs, flag)] == renamed
    ensures r.Ok? ==> forall j :: 0 <= j < |xs| && j != IndexOf(xs, flag) ==> r.value[j] == xs[j]
  {
    var i :- Index(xs, flag);
    Ok(xs[i := renamed])
  }

  /** Renaming one flag does not move the first occurrence of any other token. */
  lemma {:induction false} RenameKeeps(xs: seq<string>, flag: string, renamed: string, x: string)
    requires flag in xs && x != flag && x != renamed
    ensures x in Rename(xs, flag, renamed).value <==> x in xs
    ensures x in xs ==> IndexOf(Rename(xs, flag, renamed).value, x) == IndexOf(xs, x)
  {
    var r := Rename(xs, flag, renamed).value;
    var i := IndexOf(xs, flag);
    if x in xs {
      var j := IndexOf(xs, x);
      assert r[j] == x;
      assert forall k :: 0 <= k < j ==> r[k] != x;
    }
    if x in r {
      var j :| 0 <= j < |r| && r[j] == x;
      assert xs[j] == x;
    }
  }

  /** The two renamings commute, so the order of the `remap` dictionary does not matter. */
  lemma {:induction false} RenamesCommute(xs: seq<string>)
    ensures (var a :- Rename(xs, "--iseed", "--seed"); Rename(a, "--pythia8_path", "--pythia8")) ==
            (var b :- Rename(xs, "--pythia8_path", "--pythia8"); Rename(b, "--iseed", "--seed"))
  {
    if "--iseed" in xs {
      RenameKeeps(xs, "--iseed", "--seed", "--pythia8_path");
    }
    if "--pythia8_path" in xs {
      RenameKeeps(xs, "--pythia8_path", "--pythia8", "--iseed");
    }
    if "--iseed" in xs && "--pythia8_path" in xs {
      var i := IndexOf(xs, "--iseed");
      var j := IndexOf(xs, "--pythia8_path");
      assert xs[i := "--seed"][j := "--pythia8"] == xs[j := "--pythia8"][i := "--seed"];
    }
  }

  /** The renames of `--iseed` and `--pythia8_path`, then `job_opts.remove('--card')`. */
  function Remap(opts: seq<string>): (r: Result<seq<string>>)
    ensures r.Err? ==> r.error.ValueError?
    ensures r.Ok? ==> |r.value| == |opts| - 1
  {
    var a :- Rename(opts, "--iseed", "--seed");
    var b :- Rename(a, "--pythia8_path", "--pythia8");
    RemoveFirst(b, "--card")
  }

  /** The renaming fails exactly when one of the three flags it looks for is missing. */
  lemma {:induction false} RemapErr(opts: seq<string>)
    ensures Remap(opts).Err? <==> "--iseed" !in opts || "--pythia8_path" !in opts || "--card" !in opts
  {
    if "--iseed" in opts {
      RenameKeeps(opts, "--iseed", "--seed", "--pythia8_path");
      RenameKeeps(opts, "--iseed", "--seed", "--card");
      var a := Rename(opts, "--iseed", "--seed").value;
      if "--pythia8_path" in a {
        RenameKeeps(a, "--pythia8_path", "--pythia8", "--card");
      }
    }
  }

  /** The options of job `ind`: the forwarded attributes carry `iseed = ind`. */
  function JobOptions(c: Mg5Config, copyIn: seq<(string, string)>, copyOut: seq<(string, string)>, attrs: seq<Attr>,
                      ind: int): Result<seq<string>>
  {
    Remap(BaseOptions(c, copyIn, copyOut, SetAttr(attrs, "iseed", SeedValue(ind))))
  }

  /** `x` is none of the strings the user supplied: output directory, staged paths, option values. */
  predicate NotSupplied(x: string, c: Mg5Config, copyIn: seq<(string, string)>, copyOut: seq<(string, string)>, attrs: seq<Attr>)
  {
    x != c.oDir &&
    (forall k :: 0 <= k < |copyIn| ==> x != copyIn[k].0 && x != copyIn[k].1) &&
    (forall k :: 0 <= k < |copyOut| ==> x != copyOut[k].0 && x != copyOut[k].1) &&
    (forall i :: 0 <= i < |attrs| && Truthy(attrs[i].1) ==> attrs[i].1.value != x)
  }

  /** A flag the user did not supply as a string is absent from the staging prefix. */
  lemma {:induction false} StagingFree(c: Mg5Config, copyIn: seq<(string, string)>, copyOut: seq<(string, string)>, attrs: seq<Attr>, x: string)
    requires NotSupplied(x, c, copyIn, copyOut, attrs)
    requires x != "--oDir" && x != "--copyToLocal" && x != "--copyFromLocal" && x != "--args"
    ensures x !in Staging(c, copyIn, copyOut)
  {
    if x in Triples("--copyToLocal", copyIn) {
      TriplesMember("--copyToLocal", copyIn, x);
    }
    if x in Triples("--copyFromLocal", copyOut) {
      TriplesMember("--copyFromLocal", copyOut, x);
    }
  }

  /** A rendered integer does not start with `--`, so it is none of the flags. */
  lemma {:induction false} RenderingNotFlag(ind: int, flag: string)
    requires StartsWith(flag, "--")
    ensures IntToString(ind) != flag
  {
    var s := IntToString(ind);
    if ind >= 0 {
      assert IsDigit(s[0]);
    } else if |s| >= 2 {
      assert s[1..] == NatToString(-ind);
      assert IsDigit(s[1]);
    }
  }

  /** After setting the seed, every attribute is an old one or the seed itself. */
  lemma {:induction false} SeedAttrs(attrs: seq<Attr>, ind: int, i: int)
    requires 0 <= i < |SetAttr(attrs, "iseed", SeedValue(ind))|
    ensures var sa := SetAttr(attrs, "iseed", SeedValue(ind));
      (i < |attrs| && sa[i] == attrs[i]) || sa[i] == ("iseed", SeedValue(ind))
  {
  }

  /** No forwarded value is the flag `flag` once the seed is set, if the user supplied none. */
  lemma {:induction false} SeedAttrsFree(attrs: seq<Attr>, ind: int, flag: string)
    requires StartsWith(flag, "--")
    requires forall i :: 0 <= i < |attrs| && Truthy(attrs[i].1) ==> attrs[i].1.value != flag
    ensures var sa := SetAttr(attrs, "iseed", SeedValue(ind));
      forall i :: 0 <= i < |sa| && Truthy(sa[i].1) ==> sa[i].1.value != flag
  {
    var sa := SetAttr(attrs, "iseed", SeedValue(ind));
    forall i | 0 <= i < |sa| && Truthy(sa[i].1) ensures sa[i].1.value != flag {
      SeedAttrs(attrs, ind, i);
      RenderingNotFlag(ind, flag);
    }
  }

  /** The seed attribute's flag is followed by the rendered job ID in the forwarded tokens. */
  lemma {:induction false} SeedTokens(attrs: seq<Attr>, ind: int)
    requires ind >= 1
    requires forall i :: 0 <= i < |attrs| && Truthy(attrs[i].1) ==> attrs[i].1.value != "--iseed"
    ensures var t := AttrTokens(SetAttr(attrs, "iseed", SeedValue(ind)));
      "--iseed" in t && IndexOf(t, "--iseed") + 1 < |t| && t[IndexOf(t, "--iseed") + 1] == IntToString(ind)
  {
    var sa := SetAttr(attrs, "iseed", SeedValue(ind));
    SeedAttrsFree(attrs, ind, "--iseed");
    assert "--iseed" == "--" + "iseed";
    AttrFlagFollowedBy(sa, "iseed", IntToString(ind));
  }

  /** Renaming a flag other than `u` and `v` keeps the adjacent pair `u v` in place. */
  lemma {:induction false} RenameKeepsPair(xs: seq<string>, flag: string, renamed: string, p: int, u: string, v: string)
    requires flag in xs && 0 <= p < |xs| - 1 && xs[p] == u && xs[p + 1] == v && u != flag && v != flag
    ensures Rename(xs, flag, renamed).value[p] == u && Rename(xs, flag, renamed).value[p + 1] == v
  {
  }

  /** Removing a token other than `u` and `v` keeps the adjacent pair `u v` together. */
  lemma {:induction false} RemoveKeepsPair(xs: seq<string>, x: string, p: int, u: string, v: string)
    requires x in xs && 0 <= p < |xs| - 1 && xs[p] == u && xs[p + 1] == v && u != x && v != x
    ensures var r := RemoveFirst(xs, x).value;
      exists j :: 0 <= j < |r| - 1 && r[j] == u && r[j + 1] == v
  {
    var m := IndexOf(xs, x);
    var r := xs[..m] + xs[m + 1..];
    assert r == RemoveFirst(xs, x).value;
    assert m != p && m != p + 1;
    if m < p {
      assert r[p - 1] == xs[p] && r[p] == xs[p + 1];
      assert 0 <= p - 1 < |r| - 1;
    } else {
      assert r[p] == xs[p] && r[p + 1] == xs[p + 1];
    }
  }

  /** The remapping keeps the pair `--iseed <s>` together, as `--seed <s>`. */
  lemma {:induction false} RemapKeepsSeed(base: seq<string>, s: string)
    requires "--iseed" in base && IndexOf(base, "--iseed") + 1 < |base| && base[IndexOf(base, "--iseed") + 1] == s
    requires s != "--pythia8_path" && s != "--card"
    requires Remap(base).Ok?
    ensures var r := Remap(base).value;
      exists j :: 0 <= j < |r| - 1 && r[j] == "--seed" && r[j + 1] == s
  {
    var p := IndexOf(base, "--iseed");
    var a := Rename(base, "--iseed", "--seed").value;
    assert a[p] == "--seed" && a[p + 1] == s;
    RenameKeepsPair(a, "--pythia8_path", "--pythia8", p, "--seed", s);
    var b := Rename(a, "--pythia8_path", "--pythia8").value;
    RemoveKeepsPair(b, "--card", p, "--seed", s);
  }

  /**
   * Each node's options carry `--seed <ind>`: the seed attribute is set to the job ID and
   * its flag renamed, provided no user-supplied string is the flag `--iseed`.
   */
  lemma {:induction false} JobSeed(c: Mg5Config, copyIn: seq<(string, string)>, copyOut: seq<(string, string)>, attrs: seq<Attr>, ind: int)
    requires ind >= 1 && NotSupplied("--iseed", c, copyIn, copyOut, attrs)
    requires JobOptions(c, copyIn, copyOut, attrs, ind).Ok?
    ensures var r := JobOptions(c, copyIn, copyOut, attrs, ind).value;
      exists j :: 0 <= j < |r| - 1 && r[j] == "--seed" && r[j + 1] == IntToString(ind)
  {
    var sa := SetAttr(attrs, "iseed", SeedValue(ind));
    SeedTokens(attrs, ind);
    var pre := Staging(c, copyIn, copyOut);
    var t := AttrTokens(sa);
    StagingFree(c, copyIn, copyOut, attrs, "--iseed");
    assert JobOptions(c, copyIn, copyOut, attrs, ind) == Remap(pre + t);
    SeedSurvivesRemap(pre, t, ind);
  }

  /** A `--iseed <ind>` pair after a prefix without `--iseed` comes out of the renaming as `--seed <ind>`. */
  lemma {:induction false} SeedSurvivesRemap(pre: seq<string>, t: seq<string>, ind: int)
    requires ind >= 1 && "--iseed" !in pre
    requires "--iseed" in t && IndexOf(t, "--iseed") + 1 < |t| && t[IndexOf(t, "--iseed") + 1] == IntToString(ind)
    requires Remap(pre + t).Ok?
    ensures var r := Remap(pre + t).value;
      exists j :: 0 <= j < |r| - 1 && r[j] == "--seed" && r[j + 1] == IntToString(ind)
  {
    IndexOfSuffix(pre, t, "--iseed");
    RenderingNotFlag(ind, "--pythia8_path");
    RenderingNotFlag(ind, "--card");
    var base, q := pre + t, IndexOf(t, "--iseed");
    assert "--iseed" in base by {
      assert base[|pre| + q] == t[q];
    }
    assert base[|pre| + q + 1] == t[q + 1];
    RemapKeepsSeed(base, IntToString(ind));
  }

  /**
   * A run without a truthy `pythia8_path` raises ValueError for every job (`--pythia8_path`
   * is not among the options), unless the user supplied that flag as a string.
   */
  lemma {:induction false} MissingPythia8Raises(c: Mg5Config, copyIn: seq<(string, string)>, copyOut: seq<(string, string)>, attrs: seq<Attr>, ind: int)
    requires NotSupplied("--pythia8_path", c, copyIn, copyOut, attrs)
    requires forall i :: 0 <= i < |attrs| && attrs[i].0 == "pythia8_path" ==> !Truthy(attrs[i].1)
    ensures JobOptions(c, copyIn, copyOut, attrs, ind).Err?
    ensures JobOptions(c, copyIn, copyOut, attrs, ind).error.ValueError?
  {
    var sa := SetAttr(attrs, "iseed", SeedValue(ind));
    SeedAttrsFree(attrs, ind, "--pythia8_path");
    forall i | 0 <= i < |sa| && sa[i].0 == "pythia8_path" ensures !Truthy(sa[i].1) {
      SeedAttrs(attrs, ind, i);
    }
    var key, flag := "pythia8_path", "--pythia8_path";
    assert flag == "--" + key;
    AttrFlagPresent(sa, key);
    assert flag !in AttrTokens(sa);
    StagingFree(c, copyIn, copyOut, attrs, flag);
    var base := BaseOptions(c, copyIn, copyOut, sa);
    assert flag !in base;
    RemapErr(base);
    assert JobOptions(c, copyIn, copyOut, attrs, ind) == Remap(base);
  }

  /**
   * The loop that builds `job_opts`: `--oDir`, the copy-in triples, the copy-out triples,
   * `--args`, the truthy attributes, then the renames and the removal of `--card`.
   */
  method BuildJobOptions(c: Mg5Config, copyIn: seq<(string, string)>, copyOut: seq<(string, string)>, attrs: seq<Attr>)
    returns (r: Result<seq<string>>)
    ensures r == Remap(BaseOptions(c, copyIn, copyOut, attrs))
  {
    var opts := ["--oDir", c.oDir];
    for k := 0 to |copyIn|
      invariant opts == ["--oDir", c.oDir] + Triples("--copyToLocal", copyIn[..k])
    {
      assert copyIn[..k + 1][..k] == copyIn[..k];
      opts := opts + ["--copyToLocal", copyIn[k].0, copyIn[k].1];
    }
    assert copyIn[..|copyIn|] == copyIn;
    ghost var head := opts;
    for k := 0 to |copyOut|
      invariant opts == head + Triples("--copyFromLocal", copyOut[..k])
    {
      assert copyOut[..k + 1][..k] == copyOut[..k];
      opts := opts + ["--copyFromLocal", copyOut[k].0, copyOut[k].1];
    }
    assert copyOut[..|copyOut|] == copyOut;
    opts := opts + ["--args"];
    assert opts == Staging(c, copyIn, copyOut);
    ghost var staging := opts;
    for k := 0 to |attrs|
      invariant opts == staging + AttrTokens(attrs[..k])
    {
      assert attrs[..k + 1][..k] == attrs[..k];
      var name := attrs[k].0;
      var v := attrs[k].1;
      if name != "" && Truthy(v) {
        opts := opts + ["--" + name, v.value];
      }
    }
    assert attrs[..|attrs|] == attrs;
    // the two entries of `remap`, in a fixed order (RenamesCommute: the order does not matter)
    var i := Index(opts, "--iseed");
    if i.Err? {
      return Err(i.error);
    }
    opts := opts[i.value := "--seed"];
    i := Index(opts, "--pythia8_path");
    if i.Err? {
      return Err(i.error);
    }
    opts := opts[i.value := "--pythia8"];
    r := RemoveFirst(opts, "--card");
  }

  // ---------------------------------------------------------------------------
  // The DAG
  // ---------------------------------------------------------------------------

  function Header(c: Mg5Config): seq<string>
  {
    ["# DAG for channel " + c.channel, "# Outputting to " + c.oDir]
  }

  /** The condor log is named after the DAG file, without directory and extension. */
  function LogName(dagFile: string): string { Root(Basename(dagFile)) }

  function VarsLine(c: Mg5Config, ind: int, opts: seq<string>): string
  {
    "VARS " + NodeName(ind, c.channel) + " opts=\"" + Join(" ", opts) + "\" logdir=\"" + c.logDir +
    "\" logfile=\"" + LogName(c.dagFile) + "\""
  }

  function VarsOf(c: Mg5Config): (int, seq<string>) -> string { (ind, opts) => VarsLine(c, ind, opts) }

  function OptionsOf(c: Mg5Config, copyIn: seq<(string, string)>, copyOut: seq<(string, string)>, attrs: seq<Attr>): int -> Result<seq<string>>
  {
    ind => JobOptions(c, copyIn, copyOut, attrs, ind)
  }

  /** The whole DAG text of `write_dag_file` for the IDs `first..last`. */
  function DagText(c: Mg5Config, copyIn: seq<(string, string)>, copyOut: seq<(string, string)>, attrs: seq<Attr>,
                   first: int, last: int): Result<seq<string>>
  {
    NumberedDag(Header(c), c.channel, c.condorFile, VarsOf(c), OptionsOf(c, copyIn, copyOut, attrs), first, last,
                [StatusLine(c.statusFile)])
  }

  /** One pass of the `write_dag_file` loop: the seed attribute is overwritten, then the job's options are built. */
  method NextJob(c: Mg5Config, copyIn: seq<(string, string)>, copyOut: seq<(string, string)>, attrs0: seq<Attr>,
                 attrs: seq<Attr>, ids: seq<int>, k: int, ghost body: seq<string>)
    returns (attrsAfter: seq<Attr>, opts: Result<seq<string>>)
    requires 0 <= k < |ids|
    requires k > 0 ==> attrs == SetAttr(attrs0, "iseed", SeedValue(ids[k - 1]))
    requires k == 0 ==> attrs == attrs0
    requires Nodes(NumberedNodes(c.channel, c.condorFile, VarsOf(c), OptionsOf(c, copyIn, copyOut, attrs0)), ids[..k]) == Ok(body)
    ensures attrsAfter == SetAttr(attrs0, "iseed", SeedValue(ids[k]))
    ensures opts == JobOptions(c, copyIn, copyOut, attrs0, ids[k])
    ensures opts.Err? ==>
      Nodes(NumberedNodes(c.channel, c.condorFile, VarsOf(c), OptionsOf(c, copyIn, copyOut, attrs0)), ids) == Err(opts.error)
    ensures opts.Ok? ==>
      Nodes(NumberedNodes(c.channel, c.condorFile, VarsOf(c), OptionsOf(c, copyIn, copyOut, attrs0)), ids[..k + 1]) ==
      Ok(body + [JobLine(ids[k], c.channel, c.condorFile), VarsLine(c, ids[k], opts.value)])
  {
    var ind := ids[k];
    if k > 0 {
      SetAttrOverwrite(attrs0, "iseed", SeedValue(ids[k - 1]), SeedValue(ind));
    }
    attrsAfter := SetAttr(attrs, "iseed", SeedValue(ind));
    opts := BuildJobOptions(c, copyIn, copyOut, attrsAfter);
    assert opts == OptionsOf(c, copyIn, copyOut, attrs0)(ind);
    NumberedStep(c.channel, c.condorFile, VarsOf(c), OptionsOf(c, copyIn, copyOut, attrs0), ids, k, body);
    if opts.Ok? {
      assert VarsOf(c)(ind, opts.value) == VarsLine(c, ind, opts.value);
    }
  }

  /**
   * `write_dag_file`: the header, then per job ID its JOB line and its VARS line, the seed
   * attribute of the one parsed option set being overwritten for each job, then the status line.
   */
  method WriteDag(c: Mg5Config, copyIn: seq<(string, string)>, copyOut: seq<(string, string)>, attrs0: seq<Attr>,
                  first: int, last: int) returns (lines: Result<seq<string>>)
    ensures lines == DagText(c, copyIn, copyOut, attrs0, first, last)
  {
    ghost var nodeOf := NumberedNodes(c.channel, c.condorFile, VarsOf(c), OptionsOf(c, copyIn, copyOut, attrs0));
    var attrs := attrs0;
    var ids := JobIds(first, last);
    var body: seq<string> := [];
    var k := 0;
    while k < |ids|
      invariant 0 <= k <= |ids|
      invariant Nodes(nodeOf, ids[..k]) == Ok(body)
      invariant k > 0 ==> attrs == SetAttr(attrs0, "iseed", SeedValue(ids[k - 1]))
      invariant k == 0 ==> attrs == attrs0
    {
      var opts;
      attrs, opts := NextJob(c, copyIn, copyOut, attrs0, attrs, ids, k, body);
      if opts.Err? {
        lines := Err(opts.error);
        return;
      }
      body := body + [JobLine(ids[k], c.channel, c.condorFile), VarsLine(c, ids[k], opts.value)];
      k := k + 1;
    }
    assert ids[..k] == ids;
    lines := Ok(Header(c) + body + [StatusLine(c.statusFile)]);
  }

  /**
   * The DAG for `first..last`: two header lines, then per ID in increasing order its JOB
   * line `JOB <ind>_<channel> <condor file>` and its VARS line carrying that job's options,
   * then one status line with a 30-second interval.
   */
  lemma {:induction false} DagTextShape(c: Mg5Config, copyIn: seq<(string, string)>, copyOut: seq<(string, string)>, attrs: seq<Attr>,
                     first: int, last: int, k: int)
    requires DagText(c, copyIn, copyOut, attrs, first, last).Ok?
    requires 0 <= k <= last - first
    ensures |DagText(c, copyIn, copyOut, attrs, first, last).value| == 2 + 2 * (last - first + 1) + 1
    ensures var r := DagText(c, copyIn, copyOut, attrs, first, last).value;
      r[..2] == Header(c) && r[|r| - 1] == StatusLine(c.statusFile)
    ensures DagText(c, copyIn, copyOut, attrs, first, last).value[2 + 2 * k] == JobLine(first + k, c.channel, c.condorFile)
    ensures JobOptions(c, copyIn, copyOut, attrs, first + k).Ok?
    ensures DagText(c, copyIn, copyOut, attrs, first, last).value[3 + 2 * k] ==
      VarsLine(c, first + k, JobOptions(c, copyIn, copyOut, attrs, first + k).value)
  {
    LayoutAt(c, OptionsOf(c, copyIn, copyOut, attrs), first, last, k);
  }

  /** The layout for any per-job options. */
  lemma {:induction false} LayoutAt(c: Mg5Config, optsOf: int -> Result<seq<string>>, first: int, last: int, k: int)
    requires NumberedDag(Header(c), c.channel, c.condorFile, VarsOf(c), optsOf, first, last, [StatusLine(c.statusFile)]).Ok?
    requires 0 <= k <= last - first
    ensures var r := NumberedDag(Header(c), c.channel, c.condorFile, VarsOf(c), optsOf, first, last, [StatusLine(c.statusFile)]).value;
      |r| == 2 + 2 * (last - first + 1) + 1 && r[..2] == Header(c) && r[|r| - 1] == StatusLine(c.statusFile) &&
      r[2 + 2 * k] == JobLine(first + k, c.channel, c.condorFile) && optsOf(first + k).Ok? &&
      r[3 + 2 * k] == VarsLine(c, first + k, optsOf(first + k).value)
  {
    NumberedDagAt(Header(c), c.channel, c.condorFile, VarsOf(c), optsOf, first, last, [StatusLine(c.statusFile)], k);
  }

  /** No two nodes share a JOB line, hence a name. */
  lemma {:induction false} DagNodesDistinct(c: Mg5Config, copyIn: seq<(string, string)>, copyOut: seq<(string, string)>, attrs: seq<Attr>,
                         first: int, last: int, k1: int, k2: int)
    requires DagText(c, copyIn, copyOut, attrs, first, last).Ok?
    requires 0 <= k1 <= last - first && 0 <= k2 <= last - first && k1 != k2
    ensures |DagText(c, copyIn, copyOut, attrs, first, last).value| == 2 + 2 * (last - first + 1) + 1
    ensures DagText(c, copyIn, copyOut, attrs, first, last).value[2 + 2 * k1] !=
            DagText(c, copyIn, copyOut, attrs, first, last).value[2 + 2 * k2]
  {
    NumberedDagDistinct(Header(c), c.channel, c.condorFile, VarsOf(c), OptionsOf(c, copyIn, copyOut, attrs),
                        first, last, [StatusLine(c.statusFile)], k1, k2);
  }

  /** The writer fails exactly when the options of one of the jobs fail. */
  lemma {:induction false} DagTextErr(c: Mg5Config, copyIn: seq<(string, string)>, copyOut: seq<(string, string)>, attrs: seq<Attr>,
                   first: int, last: int)
    ensures DagText(c, copyIn, copyOut, attrs, first, last).Err? <==>
      exists ind :: first <= ind <= last && JobOptions(c, copyIn, copyOut, attrs, ind).Err?
  {
    var optsOf := OptionsOf(c, copyIn, copyOut, attrs);
    NumberedDagErr(Header(c), c.channel, c.condorFile, VarsOf(c), optsOf, first, last, [StatusLine(c.statusFile)]);
    assert forall ind :: optsOf(ind) == JobOptions(c, copyIn, copyOut, attrs, ind);
  }

  /** An empty (or reversed) ID range yields the header and the status line only. */
  lemma {:induction false} DagTextEmpty(c: Mg5Config, copyIn: seq<(string, string)>, copyOut: seq<(string, string)>, attrs: seq<Attr>,
                     first: int, last: int)
    requires last < first
    ensures DagText(c, copyIn, copyOut, attrs, first, last) == Ok(Header(c) + [StatusLine(c.statusFile)])
  {
    NumberedDagEmpty(Header(c), c.channel, c.condorFile, VarsOf(c), OptionsOf(c, copyIn, copyOut, attrs), first, last,
                     [StatusLine(c.statusFile)]);
  }
}
