/**
 * The file system as the scripts see it: each existing path is a regular file or a
 * directory. `os.path.isfile` and `os.path.isdir` become membership tests.
 */
module FileSystem {
  datatype Kind = File | Directory

  type Fs = map<string, Kind>

  /** `os.path.isfile(p)`. */
  predicate IsFile(fs: Fs, p: string) { p in fs && fs[p] == File }

  /** `os.path.isdir(p)`. */
  predicate IsDir(fs: Fs, p: string) { p in fs && fs[p] == Directory }

  /** The file system after `os.rename(src, dest)` of an existing `src`: `dest` takes its place. */
  function Moved(fs: Fs, src: string, dest: string): (r: Fs)
    requires src in fs
    ensures dest in r && r[dest] == fs[src]
    ensures src != dest ==> src !in r
    ensures forall p :: p in fs && p != src && p != dest ==> p in r && r[p] == fs[p]
  {
    (fs - {src})[dest := fs[src]]
  }

  /** A directory made, then two other paths removed, is still a directory. */
  lemma {:induction false} MadeDirKept(fs: Fs, d: string, a: string, b: string)
    requires d != a && d != b
    ensures IsDir(fs[d := Directory] - {a, b}, d)
  {
  }
}
