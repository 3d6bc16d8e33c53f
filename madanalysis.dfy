/**
 * The file lists MadAnalysis is run on. One list is written per channel of the samples
 * file (channels whose name starts with '#', '!' or '_' are ignored). It holds, one per
 * line, the `.root` files of the channel's directories, in directory order and then in each
 * directory's listing order, capped at the channel's `num` when that is positive.
 *
 * A directory listing is a map from a listable directory to its entries in listing order;
 * a directory missing from the map cannot be listed. The file paths are generated lazily,
 * one directory at a time, so a directory the cap never reaches is never listed.
 */
module MadAnalysis {
  import opened Wrappers
  import opened Text
  import opened Paths

  /** A channel's entry in the samples file: its `num` and `dirs` keys, either of which may be missing. */
  datatype Channel = Channel(num: Option<int>, dirs: Option<seq<string>>)

  /** A written file list: its path and its lines, each ending in a newline. */
  datatype FileList = FileList(path: string, lines: seq<string>)

  /** `(ext and f.endswith(ext)) or not ext`. */
  predicate Accept(f: string, ext: string) { ext == "" || EndsWith(f, ext) }

  /** The paths one directory contributes: `os.path.join(d, f)` for each accepted entry, in listing order. */
  function DirPaths(d: string, names: seq<string>, ext: string): (r: seq<string>)
    ensures |r| <= |names|
  {
    if names == [] then []
    else
      var front := DirPaths(d, names[..|names| - 1], ext);
      var last := names[|names| - 1];
      if Accept(last, ext) then front + [PathJoin(d, last)] else front
  }

  /** A directory contributes exactly the joins of its accepted entries. */
  lemma {:induction false} DirPathsMembers(d: string, names: seq<string>, ext: string, p: string)
    ensures p in DirPaths(d, names, ext) <==> exists i :: 0 <= i < |names| && Accept(names[i], ext) && p == PathJoin(d, names[i])
    decreases |names|
  {
    if names != [] {
      var front := names[..|names| - 1];
      DirPathsMembers(d, front, ext, p);
      assert forall i :: 0 <= i < |names| - 1 ==> front[i] == names[i];
      if p in DirPaths(d, front, ext) {
        var i :| 0 <= i < |front| && Accept(front[i], ext) && p == PathJoin(d, front[i]);
        assert names[i] == front[i];
      }
    }
  }

  lemma {:induction false} DirPathsAppend(d: string, a: seq<string>, b: seq<string>, ext: string)
    ensures DirPaths(d, a + b, ext) == DirPaths(d, a, ext) + DirPaths(d, b, ext)
    decreases |b|
  {
    if b == [] {
      assert a + b == a;
    } else {
      var b' := b[..|b| - 1];
      assert (a + b)[..|a + b| - 1] == a + b';
      DirPathsAppend(d, a, b', ext);
    }
  }

  /** What the generator yields before it stops, and the error that stops it early, if any. */
  datatype Stream = Stream(items: seq<string>, failure: Option<Error>)

  /**
   * `dir_file_iter(dirs, ext)` run to its end: the paths of each directory in turn, up to
   * the first directory that cannot be listed, whose `os.listdir` raises OSError.
   */
  function Scan(listing: map<string, seq<string>>, dirs: seq<string>, ext: string): Stream
  {
    if dirs == [] then Stream([], None)
    else if dirs[0] !in listing then Stream([], Some(OSError(dirs[0])))
    else
      var rest := Scan(listing, dirs[1..], ext);
      Stream(DirPaths(dirs[0], listing[dirs[0]], ext) + rest.items, rest.failure)
  }

  /** The scan fails exactly when some directory cannot be listed, with the OSError of the first such directory. */
  lemma {:induction false} ScanFailure(listing: map<string, seq<string>>, dirs: seq<string>, ext: string)
    ensures Scan(listing, dirs, ext).failure.None? <==> forall k :: 0 <= k < |dirs| ==> dirs[k] in listing
    ensures Scan(listing, dirs, ext).failure.Some? ==>
      exists k :: 0 <= k < |dirs| && dirs[k] !in listing && (forall i :: 0 <= i < k ==> dirs[i] in listing) &&
                  Scan(listing, dirs, ext).failure == Some(OSError(dirs[k]))
  {
    if dirs != [] && dirs[0] in listing {
      ScanFailure(listing, dirs[1..], ext);
      assert forall k :: 0 <= k < |dirs| - 1 ==> dirs[1..][k] == dirs[k + 1];
      if Scan(listing, dirs, ext).failure.Some? {
        var k :| 0 <= k < |dirs[1..]| && dirs[1..][k] !in listing && (forall i :: 0 <= i < k ==> dirs[1..][i] in listing) &&
                 Scan(listing, dirs[1..], ext).failure == Some(OSError(dirs[1..][k]));
        assert forall i :: 0 <= i < k + 1 ==> dirs[i] in listing by {
          forall i | 0 <= i < k + 1 ensures dirs[i] in listing {
            if i > 0 {
              assert dirs[i] == dirs[1..][i - 1];
            }
          }
        }
      }
    } else if dirs != [] {
      assert dirs[0] !in listing;
    }
  }

  /** Listing directories one after the other: the first group's paths come first. */
  lemma {:induction false} ScanAppend(listing: map<string, seq<string>>, a: seq<string>, b: seq<string>, ext: string)
    requires forall k :: 0 <= k < |a| ==> a[k] in listing
    ensures Scan(listing, a + b, ext) == Stream(Scan(listing, a, ext).items + Scan(listing, b, ext).items, Scan(listing, b, ext).failure)
    decreases |a|
  {
    if a == [] {
      assert a + b == b;
    } else {
      assert (a + b)[0] == a[0];
      assert (a + b)[1..] == a[1..] + b;
      ScanAppend(listing, a[1..], b, ext);
    }
  }

  /** Every listed path is a join of one of the directories with one of its accepted entries. */
  lemma {:induction false} ScanItems(listing: map<string, seq<string>>, dirs: seq<string>, ext: string, p: string)
    requires p in Scan(listing, dirs, ext).items
    ensures exists k :: 0 <= k < |dirs| && dirs[k] in listing &&
                        (exists f :: f in listing[dirs[k]] && Accept(f, ext) && p == PathJoin(dirs[k], f))
  {
    var d := dirs[0];
    var rest := Scan(listing, dirs[1..], ext);
    DirPathsMembers(d, listing[d], ext, p);
    if p in DirPaths(d, listing[d], ext) {
      var i :| 0 <= i < |listing[d]| && Accept(listing[d][i], ext) && p == PathJoin(d, listing[d][i]);
      assert listing[d][i] in listing[d];
    } else {
      ScanItems(listing, dirs[1..], ext, p);
      var k :| 0 <= k < |dirs[1..]| && dirs[1..][k] in listing &&
        exists f :: f in listing[dirs[1..][k]] && Accept(f, ext) && p == PathJoin(dirs[1..][k], f);
      assert dirs[1..][k] == dirs[k + 1];
    }
  }

  /** `'%s\n' % f` for each path. */
  function Lines(paths: seq<string>): (r: seq<string>)
    ensures |r| == |paths| && forall i :: 0 <= i < |paths| ==> r[i] == paths[i] + "\n"
  {
    seq(|paths|, i requires 0 <= i < |paths| => paths[i] + "\n")
  }

  /**
   * The `enumerate` loop with its `break`: a positive `num` stops it at the item numbered
   * `num`, before the generator reaches anything after it; otherwise it consumes the
   * generator to its end and meets its error, if any.
   */
  function Consume(s: Stream, num: int): (r: Result<seq<string>>)
    ensures r.Ok? ==> num > 0 ==> |r.value| <= num
    ensures r.Ok? ==> exists n :: 0 <= n <= |s.items| && r.value == Lines(s.items[..n])
    ensures r.Ok? && num <= 0 ==> r.value == Lines(s.items)
    ensures r.Err? <==> s.failure.Some? && (num <= 0 || |s.items| <= num)
    ensures r.Err? ==> r.error == s.failure.value
  {
    if num > 0 && |s.items| > num then Ok(Lines(s.items[..num]))
    else if s.failure.Some? then Err(s.failure.value)
    else
      assert s.items[..|s.items|] == s.items;
      Ok(Lines(s.items))
  }

  /**
   * `create_filelist(channel, chan_dict, out_dir)`: the list goes to `out_dir/<channel>`;
   * a missing `num` or `dirs` raises KeyError, `num` being read first.
   */
  function CreateFilelist(channel: string, chan: Channel, outDir: string, listing: map<string, seq<string>>): (r: Result<FileList>)
    ensures r.Ok? ==> r.value.path == PathJoin(outDir, channel)
    ensures chan.num.None? ==> r == Err(KeyError("num"))
    ensures chan.num.Some? && chan.dirs.None? ==> r == Err(KeyError("dirs"))
  {
    var num :- (if chan.num.None? then Err(KeyError("num")) else Ok(chan.num.value));
    var dirs :- (if chan.dirs.None? then Err(KeyError("dirs")) else Ok(chan.dirs.value));
    var lines :- Consume(Scan(listing, dirs, ".root"), num);
    Ok(FileList(PathJoin(outDir, channel), lines))
  }

  /** The written lines are the first paths of the channel's `.root` files, at most `num` of them when `num` is positive. */
  lemma {:induction false} FilelistContents(channel: string, chan: Channel, outDir: string, listing: map<string, seq<string>>)
    requires CreateFilelist(channel, chan, outDir, listing).Ok?
    ensures chan.num.Some? && chan.dirs.Some?
    ensures chan.num.value > 0 ==> |CreateFilelist(channel, chan, outDir, listing).value.lines| <= chan.num.value
    ensures exists n :: (0 <= n <= |Scan(listing, chan.dirs.value, ".root").items| &&
      CreateFilelist(channel, chan, outDir, listing).value.lines == Lines(Scan(listing, chan.dirs.value, ".root").items[..n]))
    ensures chan.num.value <= 0 ==>
      CreateFilelist(channel, chan, outDir, listing).value.lines == Lines(Scan(listing, chan.dirs.value, ".root").items)
  {
    var s := Scan(listing, chan.dirs.value, ".root");
    var c := Consume(s, chan.num.value);
    assert c.Ok? && CreateFilelist(channel, chan, outDir, listing).value.lines == c.value;
  }

  /** Every written line names a `.root` entry of one of the channel's directories. */
  lemma {:induction false} FilelistEntries(channel: string, chan: Channel, outDir: string, listing: map<string, seq<string>>, i: int)
    requires CreateFilelist(channel, chan, outDir, listing).Ok?
    requires 0 <= i < |CreateFilelist(channel, chan, outDir, listing).value.lines|
    ensures chan.dirs.Some?
    ensures exists d, f :: (d in chan.dirs.value && d in listing && f in listing[d] && EndsWith(f, ".root") &&
                           CreateFilelist(channel, chan, outDir, listing).value.lines[i] == PathJoin(d, f) + "\n")
  {
    var dirs := chan.dirs.value;
    var items := Scan(listing, dirs, ".root").items;
    var lines := CreateFilelist(channel, chan, outDir, listing).value.lines;
    FilelistContents(channel, chan, outDir, listing);
    var n :| 0 <= n <= |items| && lines == Lines(items[..n]);
    PrefixEntries(listing, dirs, n, i);
  }

  /** Line `i` of the lines for the first `n` scanned paths names a `.root` entry of one of `dirs`. */
  lemma {:induction false} PrefixEntries(listing: map<string, seq<string>>, dirs: seq<string>, n: int, i: int)
    requires 0 <= i < n <= |Scan(listing, dirs, ".root").items|
    ensures exists d, f :: (d in dirs && d in listing && f in listing[d] && EndsWith(f, ".root") &&
                           Lines(Scan(listing, dirs, ".root").items[..n])[i] == PathJoin(d, f) + "\n")
  {
    var items := Scan(listing, dirs, ".root").items;
    var lines := Lines(items[..n]);
    assert items[..n][i] == items[i];
    assert items[i] in items;
    ScanItems(listing, dirs, ".root", items[i]);
    var k :| 0 <= k < |dirs| && dirs[k] in listing &&
      exists f :: f in listing[dirs[k]] && Accept(f, ".root") && items[i] == PathJoin(dirs[k], f);
    var d := dirs[k];
    var f :| f in listing[d] && Accept(f, ".root") && items[i] == PathJoin(d, f);
    assert d in dirs;
    assert lines[i] == PathJoin(d, f) + "\n";
  }

  /**
   * The cap stops the generator: once the first directories hold more than `num` files, a
   * later directory that cannot be listed does no harm.
   */
  lemma {:induction false} CapSkipsLaterDirs(channel: string, num: int, first: seq<string>, later: seq<string>, outDir: string,
                          listing: map<string, seq<string>>)
    requires num > 0 && forall k :: 0 <= k < |first| ==> first[k] in listing
    requires |Scan(listing, first, ".root").items| > num
    ensures CreateFilelist(channel, Channel(Some(num), Some(first + later)), outDir, listing) ==
      Ok(FileList(PathJoin(outDir, channel), Lines(Scan(listing, first, ".root").items[..num])))
  {
    ScanAppend(listing, first, later, ".root");
    var s := Scan(listing, first, ".root").items;
    assert (s + Scan(listing, later, ".root").items)[..num] == s[..num];
  }

  /** With every directory listable and no cap, the list is every `.root` file, in order. */
  lemma {:induction false} UncappedListsAll(channel: string, num: int, dirs: seq<string>, outDir: string, listing: map<string, seq<string>>)
    requires num <= 0 && forall k :: 0 <= k < |dirs| ==> dirs[k] in listing
    ensures CreateFilelist(channel, Channel(Some(num), Some(dirs)), outDir, listing) ==
      Ok(FileList(PathJoin(outDir, channel), Lines(Scan(listing, dirs, ".root").items)))
  {
    ScanFailure(listing, dirs, ".root");
  }

  /** The scan splits after the first `k` directories when those can all be listed. */
  lemma {:induction false} ScanSplit(listing: map<string, seq<string>>, dirs: seq<string>, ext: string, k: int)
    requires 0 <= k <= |dirs| && forall i :: 0 <= i < k ==> dirs[i] in listing
    ensures Scan(listing, dirs, ext) ==
      Stream(Scan(listing, dirs[..k], ext).items + Scan(listing, dirs[k..], ext).items, Scan(listing, dirs[k..], ext).failure)
  {
    ScanAppend(listing, dirs[..k], dirs[k..], ext);
    assert dirs[..k] + dirs[k..] == dirs;
  }

  /** Scanning from a listable directory `k` on: its paths, then the rest. */
  lemma {:induction false} ScanFrom(listing: map<string, seq<string>>, dirs: seq<string>, ext: string, k: int)
    requires 0 <= k < |dirs| && dirs[k] in listing
    ensures Scan(listing, dirs[k..], ext).items == DirPaths(dirs[k], listing[dirs[k]], ext) + Scan(listing, dirs[k + 1..], ext).items
  {
    assert dirs[k..][0] == dirs[k];
    assert dirs[k..][1..] == dirs[k + 1..];
  }

  /** The generator's yield at entry `j` of directory `k`, seen from the whole scan. */
  lemma {:induction false} ScanAt(listing: map<string, seq<string>>, dirs: seq<string>, ext: string, k: int, j: int)
    requires 0 <= k < |dirs| && forall i :: 0 <= i <= k ==> dirs[i] in listing
    requires 0 <= j < |listing[dirs[k]]| && Accept(listing[dirs[k]][j], ext)
    ensures var before := Scan(listing, dirs[..k], ext).items + DirPaths(dirs[k], listing[dirs[k]][..j], ext);
      var items := Scan(listing, dirs, ext).items;
      |items| > |before| && items[..|before|] == before && items[|before|] == PathJoin(dirs[k], listing[dirs[k]][j])
  {
    var d := dirs[k];
    var names := listing[d];
    ScanSplit(listing, dirs, ext, k);
    ScanFrom(listing, dirs, ext, k);
    DirPathsAt(d, names, ext, j);
    SplitAt(Scan(listing, dirs, ext).items, Scan(listing, dirs[..k], ext).items, DirPaths(d, names, ext),
            Scan(listing, dirs[k + 1..], ext).items, DirPaths(d, names[..j], ext), PathJoin(d, names[j]),
            DirPaths(d, names[j + 1..], ext));
  }

  /** An accepted entry `j` contributes its path between those of the entries before and after it. */
  lemma {:induction false} DirPathsAt(d: string, names: seq<string>, ext: string, j: int)
    requires 0 <= j < |names| && Accept(names[j], ext)
    ensures DirPaths(d, names, ext) == DirPaths(d, names[..j], ext) + [PathJoin(d, names[j])] + DirPaths(d, names[j + 1..], ext)
  {
    assert names == names[..j] + [names[j]] + names[j + 1..];
    DirPathsAppend(d, names[..j] + [names[j]], names[j + 1..], ext);
    DirPathsAppend(d, names[..j], [names[j]], ext);
    assert DirPaths(d, [names[j]], ext) == [PathJoin(d, names[j])] by {
      assert [names[j]][..0] == [];
    }
  }

  /** A sequence built as `a + (b + t)` with `b == p + [q] + r` starts with `a + p`, followed by `q`. */
  lemma {:induction false} SplitAt<T>(items: seq<T>, a: seq<T>, b: seq<T>, t: seq<T>, p: seq<T>, q: T, r: seq<T>)
    requires items == a + (b + t) && b == p + [q] + r
    ensures |items| > |a + p| && items[..|a + p|] == a + p && items[|a + p|] == q
  {
    assert items == (a + p) + ([q] + r + t);
  }

  /** Directory `k` fully listed: the scan of the first `k + 1` directories. */
  lemma {:induction false} ScanStep(listing: map<string, seq<string>>, dirs: seq<string>, ext: string, k: int)
    requires 0 <= k < |dirs| && forall i :: 0 <= i <= k ==> dirs[i] in listing
    ensures Scan(listing, dirs[..k + 1], ext).items == Scan(listing, dirs[..k], ext).items + DirPaths(dirs[k], listing[dirs[k]], ext)
  {
    assert dirs[..k + 1] == dirs[..k] + [dirs[k]];
    ScanAppend(listing, dirs[..k], [dirs[k]], ext);
    assert [dirs[k]][1..] == [];
  }

  /** Directory `k` cannot be listed: the scan stops there with its OSError. */
  lemma {:induction false} ScanMissing(listing: map<string, seq<string>>, dirs: seq<string>, ext: string, k: int)
    requires 0 <= k < |dirs| && dirs[k] !in listing && forall i :: 0 <= i < k ==> dirs[i] in listing
    ensures Scan(listing, dirs, ext) == Stream(Scan(listing, dirs[..k], ext).items, Some(OSError(dirs[k])))
  {
    ScanSplit(listing, dirs, ext, k);
    assert dirs[k..][0] == dirs[k];
  }

  /**
   * The inner loop of the generator over one directory's entries, with the consumer's
   * counter and `break`: it stops at entry `j` when the item it yields there is numbered `num`.
   */
  method ListDir(d: string, names: seq<string>, ext: string, num: int, lines0: seq<string>, ghost seen0: seq<string>)
    returns (lines: seq<string>, broke: bool, ghost j: int)
    requires lines0 == Lines(seen0) && (num <= 0 || |seen0| <= num)
    ensures !broke ==> lines == Lines(seen0 + DirPaths(d, names, ext)) && (num <= 0 || |seen0 + DirPaths(d, names, ext)| <= num)
    ensures broke ==> (0 <= j < |names| && Accept(names[j], ext) && num > 0 &&
                       |seen0 + DirPaths(d, names[..j], ext)| == num && lines == Lines(seen0 + DirPaths(d, names[..j], ext)))
  {
    lines, broke, j := lines0, false, 0;
    var i := |lines0|;
    ghost var seen := seen0;
    var k := 0;
    while k < |names|
      invariant 0 <= k <= |names|
      invariant seen == seen0 + DirPaths(d, names[..k], ext)
      invariant i == |seen| && lines == Lines(seen)
      invariant num <= 0 || i <= num
    {
      assert names[..k + 1][..k] == names[..k];
      var f := names[k];
      if ext == "" || EndsWith(f, ext) {
        if i >= num && num > 0 {
          return lines, true, k;
        }
        var p := PathJoin(d, f);
        lines := lines + [p + "\n"];
        seen := seen + [p];
        i := i + 1;
      }
      k := k + 1;
    }
    assert names[..|names|] == names;
  }

  /** The consumer stopping at item `num` of a scan whose first `num` items are `seen`. */
  lemma {:induction false} ConsumeCapped(s: Stream, num: int, seen: seq<string>)
    requires num > 0 && |seen| == num && |s.items| > num && s.items[..num] == seen
    ensures Consume(s, num) == Ok(Lines(seen))
  {
  }

  /** The scan stops at a directory that cannot be listed, before `num` items were seen. */
  lemma {:induction false} MissingConsumed(listing: map<string, seq<string>>, dirs: seq<string>, ext: string, num: int,
                                           k: int, seen: seq<string>)
    requires 0 <= k < |dirs| && dirs[k] !in listing && forall i :: 0 <= i < k ==> dirs[i] in listing
    requires seen == Scan(listing, dirs[..k], ext).items && (num <= 0 || |seen| <= num)
    ensures Consume(Scan(listing, dirs, ext), num) == Err(OSError(dirs[k]))
  {
    ScanMissing(listing, dirs, ext, k);
  }

  /** The consumer breaks at entry `j` of directory `k`, having taken exactly `num` items. */
  lemma {:induction false} BrokeConsumed(listing: map<string, seq<string>>, dirs: seq<string>, ext: string, num: int,
                                         k: int, j: int, seen: seq<string>)
    requires 0 <= k < |dirs| && forall i :: 0 <= i <= k ==> dirs[i] in listing
    requires 0 <= j < |listing[dirs[k]]| && Accept(listing[dirs[k]][j], ext) && num > 0
    requires seen == Scan(listing, dirs[..k], ext).items
    requires |seen + DirPaths(dirs[k], listing[dirs[k]][..j], ext)| == num
    ensures Consume(Scan(listing, dirs, ext), num) == Ok(Lines(seen + DirPaths(dirs[k], listing[dirs[k]][..j], ext)))
  {
    ScanAt(listing, dirs, ext, k, j);
    ConsumeCapped(Scan(listing, dirs, ext), num, seen + DirPaths(dirs[k], listing[dirs[k]][..j], ext));
  }

  /** Every directory listed without reaching the cap: all the items are written. */
  lemma {:induction false} EndConsumed(listing: map<string, seq<string>>, dirs: seq<string>, ext: string, num: int, seen: seq<string>)
    requires forall i :: 0 <= i < |dirs| ==> dirs[i] in listing
    requires seen == Scan(listing, dirs, ext).items && (num <= 0 || |seen| <= num)
    ensures Consume(Scan(listing, dirs, ext), num) == Ok(Lines(seen))
  {
    ScanFailure(listing, dirs, ext);
    assert seen[..|seen|] == seen;
  }

  /** The nested generator loops with the `enumerate` counter and the `break`, over the directories `dirs`. */
  method ConsumeLoop(listing: map<string, seq<string>>, dirs: seq<string>, ext: string, num: int)
    returns (r: Result<seq<string>>)
    ensures r == Consume(Scan(listing, dirs, ext), num)
  {
    var lines: seq<string> := [];
    ghost var seen: seq<string> := [];
    var k := 0;
    while k < |dirs|
      invariant 0 <= k <= |dirs| && forall j :: 0 <= j < k ==> dirs[j] in listing
      invariant seen == Scan(listing, dirs[..k], ext).items
      invariant lines == Lines(seen)
      invariant num <= 0 || |seen| <= num
    {
      var d := dirs[k];
      if d !in listing {
        MissingConsumed(listing, dirs, ext, num, k, seen);
        return Err(OSError(d));
      }
      var broke: bool;
      ghost var j: int;
      lines, broke, j := ListDir(d, listing[d], ext, num, lines, seen);
      if broke {
        BrokeConsumed(listing, dirs, ext, num, k, j, seen);
        return Ok(lines);
      }
      ScanStep(listing, dirs, ext, k);
      seen := seen + DirPaths(d, listing[d], ext);
      k := k + 1;
    }
    assert dirs[..|dirs|] == dirs;
    EndConsumed(listing, dirs, ext, num, seen);
    return Ok(lines);
  }

  /** `create_filelist` as it runs: the two lookups, then the generator loops. */
  method CreateFilelistLoop(channel: string, chan: Channel, outDir: string, listing: map<string, seq<string>>)
    returns (r: Result<FileList>)
    ensures r == CreateFilelist(channel, chan, outDir, listing)
  {
    var filename := PathJoin(outDir, channel);
    if chan.num.None? {
      return Err(KeyError("num"));
    }
    var num := chan.num.value;
    if chan.dirs.None? {
      return Err(KeyError("dirs"));
    }
    var lines :- ConsumeLoop(listing, chan.dirs.value, ".root", num);
    return Ok(FileList(filename, lines));
  }

  /** A channel the list comprehension leaves out. */
  predicate Ignored(channel: string) { channel != [] && channel[0] in ['#', '!', '_'] }

  /** The channels that get a list, in the order of the samples dictionary's entries. */
  function Kept(samples: seq<(string, Channel)>): (r: seq<(string, Channel)>)
    ensures |r| <= |samples|
  {
    if samples == [] then []
    else if Ignored(samples[0].0) then Kept(samples[1..])
    else [samples[0]] + Kept(samples[1..])
  }

  /** A channel gets a list exactly when it is not ignored. */
  lemma {:induction false} KeptMembers(samples: seq<(string, Channel)>, c: (string, Channel))
    ensures c in Kept(samples) <==> c in samples && !Ignored(c.0)
  {
    if samples != [] {
      KeptMembers(samples[1..], c);
      assert c in samples <==> c == samples[0] || c in samples[1..];
    }
  }

  /** `create_filelist(channel, chan_dict, out_dir)` as a function of the pair. */
  function CreateStep(outDir: string, listing: map<string, seq<string>>): ((string, Channel)) -> Result<FileList>
  {
    (c: (string, Channel)) => CreateFilelist(c.0, c.1, outDir, listing)
  }

  /**
   * `generate_filelists(sample_dict, out_dir)`: the list comprehension over the samples in
   * order. An empty channel name raises IndexError at `channel[0]`, and the first failing
   * list stops the comprehension.
   */
  function GenerateFilelists(samples: seq<(string, Channel)>, outDir: string, listing: map<string, seq<string>>):
    (r: Result<seq<FileList>>)
    ensures r.Ok? ==> |r.value| <= |samples|
  {
    if samples == [] then Ok([])
    else
      var c := samples[0];
      if c.0 == "" then Err(IndexError)
      else if Ignored(c.0) then GenerateFilelists(samples[1..], outDir, listing)
      else
        var f :- CreateFilelist(c.0, c.1, outDir, listing);
        var rest :- GenerateFilelists(samples[1..], outDir, listing);
        Ok([f] + rest)
  }

  /** No channel name is empty. */
  predicate NoEmptyName(samples: seq<(string, Channel)>)
  {
    samples == [] || (samples[0].0 != "" && NoEmptyName(samples[1..]))
  }

  /** An empty name anywhere is caught by `NoEmptyName`. */
  lemma {:induction false} EmptyNameAt(samples: seq<(string, Channel)>, k: int)
    requires 0 <= k < |samples| && samples[k].0 == ""
    ensures !NoEmptyName(samples)
    decreases k
  {
    if k > 0 {
      EmptyNameAt(samples[1..], k - 1);
    }
  }

  /**
   * One list per kept channel, in the samples file's order: the comprehension succeeds
   * exactly when no channel name is empty and every kept channel's list succeeds.
   */
  lemma {:induction false} GenerateFilelistsKept(samples: seq<(string, Channel)>, outDir: string, listing: map<string, seq<string>>)
    ensures GenerateFilelists(samples, outDir, listing).Ok? <==>
      NoEmptyName(samples) && MapResults(CreateStep(outDir, listing), Kept(samples)).Ok?
    ensures GenerateFilelists(samples, outDir, listing).Ok? ==>
      GenerateFilelists(samples, outDir, listing) == MapResults(CreateStep(outDir, listing), Kept(samples))
    decreases |samples|
  {
    if samples != [] {
      var c := samples[0];
      var tail := samples[1..];
      GenerateFilelistsKept(tail, outDir, listing);
      if c.0 != "" && !Ignored(c.0) {
        KeptChannel(samples, outDir, listing);
      }
    }
  }

  /** The step for a kept first channel: its list, then the rest's, and the first failure decides. */
  lemma {:induction false} KeptChannel(samples: seq<(string, Channel)>, outDir: string, listing: map<string, seq<string>>)
    requires samples != [] && samples[0].0 != "" && !Ignored(samples[0].0)
    ensures Kept(samples) == [samples[0]] + Kept(samples[1..])
    ensures var step := CreateStep(outDir, listing);
      && (MapResults(step, Kept(samples)).Ok? <==> step(samples[0]).Ok? && MapResults(step, Kept(samples[1..])).Ok?)
      && (MapResults(step, Kept(samples)).Ok? ==>
            MapResults(step, Kept(samples)) == Ok([step(samples[0]).value] + MapResults(step, Kept(samples[1..])).value))
  {
    var c, tail := samples[0], samples[1..];
    var step := CreateStep(outDir, listing);
    if step(c).Ok? {
      MapResultsCons(step, c, Kept(tail));
    } else {
      assert [c][..0] == [];
      MapResultsLastErr(step, [c]);
      MapResultsErrExtends(step, [c], Kept(tail));
    }
  }

  /** Any empty channel name makes the whole comprehension fail, whatever comes before it. */
  lemma {:induction false} EmptyChannelFails(samples: seq<(string, Channel)>, outDir: string, listing: map<string, seq<string>>, k: int)
    requires 0 <= k < |samples| && samples[k].0 == ""
    ensures GenerateFilelists(samples, outDir, listing).Err?
  {
    EmptyNameAt(samples, k);
    GenerateFilelistsKept(samples, outDir, listing);
  }

  /** The returned lists are the kept channels' lists, each at `out_dir/<channel>`. */
  lemma {:induction false} GeneratedPaths(samples: seq<(string, Channel)>, outDir: string, listing: map<string, seq<string>>, i: int)
    requires GenerateFilelists(samples, outDir, listing).Ok?
    requires 0 <= i < |Kept(samples)|
    ensures |GenerateFilelists(samples, outDir, listing).value| == |Kept(samples)|
    ensures CreateFilelist(Kept(samples)[i].0, Kept(samples)[i].1, outDir, listing) == Ok(GenerateFilelists(samples, outDir, listing).value[i])
    ensures GenerateFilelists(samples, outDir, listing).value[i].path == PathJoin(outDir, Kept(samples)[i].0)
  {
    GenerateFilelistsKept(samples, outDir, listing);
    var c := Kept(samples)[i];
    assert CreateStep(outDir, listing)(c) == CreateFilelist(c.0, c.1, outDir, listing);
  }

  /** The ignored prefixes: a channel named after a comment marker gets no list. */
  lemma {:induction false} IgnoredPrefixes(rest: string)
    ensures Ignored("#" + rest) && Ignored("!" + rest) && Ignored("_" + rest)
    ensures !Ignored("") && !Ignored("ma1_8" + rest)
  {
  }
}
