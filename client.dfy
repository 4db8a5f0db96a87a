/**
 * The argument scan that external/client.py runs before it starts the RPC
 * dispatcher: every argument after a `-p` names a directory that is put at
 * the front of `sys.path`, unless it is already there.
 */
module Client {
  import opened Options

  const Flag: string := "-p"

  /**
   * `args.index(x, start)`: the first position at or after `start` holding `x`,
   * or None where Python raises ValueError.
   */
  function IndexFrom(args: seq<string>, x: string, start: nat): (r: Option<nat>)
    ensures r.Some? ==> start <= r.value < |args| && args[r.value] == x
    ensures r.Some? ==> forall j :: start <= j < r.value ==> args[j] != x
    ensures r.None? ==> forall j :: start <= j < |args| ==> args[j] != x
    decreases |args| - start
  {
    if start >= |args| then None
    else if args[start] == x then Some(start)
    else IndexFrom(args, x, start + 1)
  }

  /** The arguments the scan takes as paths, searching from position `i`. */
  function PathArgs(args: seq<string>, i: nat): seq<string>
    decreases |args| + 1 - i
  {
    match IndexFrom(args, Flag, i)
    case None => []
    case Some(j) => if |args| <= j + 1 then [] else [args[j + 1]] + PathArgs(args, j + 2)
  }

  /** One step of the scan: the argument after the next `-p`, then the scan after it. */
  lemma PathArgsStep(args: seq<string>, i: nat, j: nat)
    requires IndexFrom(args, Flag, i) == Some(j) && j + 1 < |args|
    ensures PathArgs(args, i) == [args[j + 1]] + PathArgs(args, j + 2)
  {
  }

  /** Every path the scan takes is the argument right after a `-p` at or after `i`. */
  lemma {:induction false} PathsFollowFlags(args: seq<string>, i: nat)
    ensures forall k :: 0 <= k < |PathArgs(args, i)| ==>
      exists j :: i <= j && j + 1 < |args| && args[j] == Flag && args[j + 1] == PathArgs(args, i)[k]
    decreases |args| + 1 - i
  {
    match IndexFrom(args, Flag, i)
    case None =>
      assert PathArgs(args, i) == [];
    case Some(j) =>
      if j + 1 < |args| {
        PathsFollowFlags(args, j + 2);
        var ps, rest := PathArgs(args, i), PathArgs(args, j + 2);
        assert ps == [args[j + 1]] + rest;
        forall k | 0 <= k < |ps|
          ensures exists j' :: i <= j' && j' + 1 < |args| && args[j'] == Flag && args[j' + 1] == ps[k]
        {
          if k == 0 {
            assert i <= j && args[j] == Flag && args[j + 1] == ps[0];
          } else {
            assert ps[k] == rest[k - 1];
            var j' :| j + 2 <= j' && j' + 1 < |args| && args[j'] == Flag && args[j' + 1] == rest[k - 1];
            assert i <= j';
          }
        }
      } else {
        assert PathArgs(args, i) == [];
      }
  }

  /** A `-p` that is the last argument ends the scan and adds nothing. */
  lemma TrailingFlagAddsNothing(args: seq<string>, i: nat)
    requires args != [] && args[|args| - 1] == Flag
    requires forall j :: i <= j < |args| - 1 ==> args[j] != Flag
    requires i <= |args| - 1
    ensures PathArgs(args, i) == []
  {
    assert IndexFrom(args, Flag, i) == Some(|args| - 1);
  }

  /** Arguments without any `-p` add no paths. */
  lemma NoFlagNoPaths(args: seq<string>, i: nat)
    requires forall j :: 0 <= j < |args| ==> args[j] != Flag
    ensures PathArgs(args, i) == []
  {
  }

  /** `os.path.isabs` on POSIX: the path starts with a slash. */
  predicate IsAbs(p: string) {
    |p| > 0 && p[0] == '/'
  }

  /** A relative path made absolute by `os.path.abspath` (given as `abspath`). */
  function Resolve(p: string, abspath: string -> string): string {
    if IsAbs(p) then p else abspath(p)
  }

  /** `sys.path` after inserting each path at its front, skipping those it already holds. */
  function InsertAll(paths: seq<string>, sysPath: seq<string>, abspath: string -> string): (r: seq<string>)
    ensures |sysPath| <= |r| <= |sysPath| + |paths|
  {
    if paths == [] then sysPath
    else
      var q := Resolve(paths[0], abspath);
      InsertAll(paths[1..], if q in sysPath then sysPath else [q] + sysPath, abspath)
  }

  lemma InsertAllCons(p: string, rest: seq<string>, sysPath: seq<string>, abspath: string -> string)
    ensures InsertAll([p] + rest, sysPath, abspath)
      == InsertAll(rest, if Resolve(p, abspath) in sysPath then sysPath else [Resolve(p, abspath)] + sysPath, abspath)
  {
    assert ([p] + rest)[1..] == rest;
  }

  /** What `sys.path` held stays, behind the inserted paths. */
  lemma {:induction false} InsertAllKeepsOld(paths: seq<string>, sysPath: seq<string>, abspath: string -> string)
    ensures var r := InsertAll(paths, sysPath, abspath); r[|r| - |sysPath|..] == sysPath
  {
    if paths != [] {
      var q := Resolve(paths[0], abspath);
      var next := if q in sysPath then sysPath else [q] + sysPath;
      InsertAllKeepsOld(paths[1..], next, abspath);
      var r := InsertAll(paths, sysPath, abspath);
      assert r[|r| - |next|..] == next;
      assert r[|r| - |sysPath|..] == next[|next| - |sysPath|..];
    }
  }

  predicate Distinct(s: seq<string>) {
    forall a, b :: 0 <= a < b < |s| ==> s[a] != s[b]
  }

  /** No path is added twice, and nothing already in `sys.path` is added again. */
  lemma {:induction false} InsertAllKeepsDistinct(paths: seq<string>, sysPath: seq<string>, abspath: string -> string)
    requires Distinct(sysPath)
    ensures Distinct(InsertAll(paths, sysPath, abspath))
  {
    if paths != [] {
      var q := Resolve(paths[0], abspath);
      var next := if q in sysPath then sysPath else [q] + sysPath;
      assert Distinct(next) by {
        if q !in sysPath {
          forall a, b | 0 <= a < b < |next| ensures next[a] != next[b] {
            if a == 0 {
              assert next[b] == sysPath[b - 1];
            } else {
              assert next[a] == sysPath[a - 1] && next[b] == sysPath[b - 1];
            }
          }
        }
      }
      InsertAllKeepsDistinct(paths[1..], next, abspath);
    }
  }

  /** Every path named, made absolute, ends up in `sys.path`. */
  lemma {:induction false} InsertAllAddsEvery(paths: seq<string>, sysPath: seq<string>, abspath: string -> string)
    ensures forall k :: 0 <= k < |paths| ==> Resolve(paths[k], abspath) in InsertAll(paths, sysPath, abspath)
  {
    if paths != [] {
      var q := Resolve(paths[0], abspath);
      var next := if q in sysPath then sysPath else [q] + sysPath;
      InsertAllAddsEvery(paths[1..], next, abspath);
      InsertAllKeepsOld(paths[1..], next, abspath);
      var r := InsertAll(paths, sysPath, abspath);
      assert q in next;
      assert r[|r| - |next|..] == next;
      forall k | 0 <= k < |paths| ensures Resolve(paths[k], abspath) in r {
        if k > 0 {
          assert paths[k] == paths[1..][k - 1];
        } else {
          var i :| 0 <= i < |next| && next[i] == q;
          assert r[|r| - |next| + i] == q;
        }
      }
    }
  }

  /** The last path named, when it is new, ends up first. */
  lemma LastNewPathFirst(paths: seq<string>, sysPath: seq<string>, abspath: string -> string)
    requires paths != []
    requires Resolve(paths[|paths| - 1], abspath) !in InsertAll(paths[..|paths| - 1], sysPath, abspath)
    ensures InsertAll(paths, sysPath, abspath)[0] == Resolve(paths[|paths| - 1], abspath)
  {
    InsertAllSnoc(paths[..|paths| - 1], paths[|paths| - 1], sysPath, abspath);
    assert paths[..|paths| - 1] + [paths[|paths| - 1]] == paths;
  }

  lemma {:induction false} InsertAllSnoc(paths: seq<string>, p: string, sysPath: seq<string>, abspath: string -> string)
    ensures InsertAll(paths + [p], sysPath, abspath)
      == var s := InsertAll(paths, sysPath, abspath);
         if Resolve(p, abspath) in s then s else [Resolve(p, abspath)] + s
  {
    if paths == [] {
      assert ([p])[1..] == [];
    } else {
      var q := Resolve(paths[0], abspath);
      var next := if q in sysPath then sysPath else [q] + sysPath;
      assert (paths + [p])[1..] == paths[1..] + [p];
      InsertAllSnoc(paths[1..], p, next, abspath);
    }
  }

  /** `sys.path`, a list the scan inserts into. */
  class SysPath {
    var entries: seq<string>

    constructor (entries: seq<string>)
      ensures this.entries == entries
    {
      this.entries := entries;
    }

    /** `sys.path.insert(0, path)`. */
    method InsertFront(path: string)
      modifies this
      ensures entries == [path] + old(entries)
    {
      entries := [path] + entries;
    }

    /**
     * The `-p` loop of client.py: search for `-p` from position 1; the argument
     * after it, made absolute, goes to the front of `sys.path` unless already
     * present; the search resumes after that argument. A `-p` with nothing after
     * it ends the scan.
     */
    method ScanArgs(args: seq<string>, abspath: string -> string)
      modifies this
      ensures entries == InsertAll(PathArgs(args, 1), old(entries), abspath)
    {
      var i := 1;
      while true
        invariant 1 <= i <= |args| + 1
        invariant InsertAll(PathArgs(args, i), entries, abspath) == InsertAll(PathArgs(args, 1), old(entries), abspath)
        decreases |args| + 1 - i
      {
        ghost var from := i;
        var found := IndexFrom(args, Flag, i);
        if found.None? {
          assert PathArgs(args, from) == [];
          break;
        }
        i := found.value;
        i := i + 1;
        if |args| <= i {
          assert PathArgs(args, from) == [];
          break;
        }
        var path := args[i];
        ghost var arg, before := path, entries;
        PathArgsStep(args, from, i - 1);
        InsertAllCons(arg, PathArgs(args, i + 1), before, abspath);
        if !IsAbs(path) {
          path := abspath(path);
        }
        assert path == Resolve(arg, abspath);
        if path !in entries {
          InsertFront(path);
        }
        assert entries == if path in before then before else [path] + before;
        i := i + 1;
      }
    }
  }
}
