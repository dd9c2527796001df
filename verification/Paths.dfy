/** Path predicates and rename rewriting, on paths as byte strings. */
module Paths {
  import opened Text

  /** `path` is `dir` itself or lies below it, at a directory boundary. */
  predicate Under(path: string, dir: string)
  {
    dir <= path && (|path| == |dir| || path[|dir|] == '/')
  }

  /** The path that `path` has after `from` was renamed to `to`, if the rename moves it. */
  function RewritePrefix(path: string, from: string, to: string): (r: Option<string>)
    ensures r.Some? <==> Under(path, from)
    ensures r.Some? ==> Under(r.value, to) && r.value[|to|..] == path[|from|..]
  {
    if path == from then Some(to)
    else if from <= path && '/' == path[|from|] then Some(to + path[|from|..])
    else None
  }

  function TrimSlashes(s: string): string
  {
    if s != "" && s[|s| - 1] == '/' then TrimSlashes(s[..|s| - 1]) else s
  }

  predicate IsPathWithin(path: string, prefix: string)
  {
    var trimmed := TrimSlashes(prefix);
    trimmed == "" || path == trimmed || trimmed + "/" <= path
  }

  /** Watching respects directory boundaries, whatever slashes end the prefix. */
  lemma WithinIsUnderTrimmed(path: string, prefix: string)
    ensures IsPathWithin(path, prefix) <==> TrimSlashes(prefix) == "" || Under(path, TrimSlashes(prefix))
  {
    var t := TrimSlashes(prefix);
    if t + "/" <= path {
      assert t <= t + "/" && path[|t|] == (t + "/")[|t|];
    }
    if Under(path, t) && path != t {
      assert path[..|t| + 1] == t + "/";
    }
  }

  predicate Watched(path: string, prefixes: seq<string>)
  {
    exists i :: 0 <= i < |prefixes| && IsPathWithin(path, prefixes[i])
  }

  predicate Contains(s: string, part: string)
  {
    exists i :: 0 <= i <= |s| && part <= s[i..]
  }

  const SYSTEM_STATE_DIRS := ["/proc", "/sys"]
  const SYSTEM_STATE_FILES :=
    ["/etc/hostname", "/etc/os-release", "/etc/machine-id", "/dev/urandom", "/dev/random", "/dev/null", "/dev/zero"]

  predicate IsSystemState(path: string)
  {
    || (exists i :: 0 <= i < |SYSTEM_STATE_DIRS| &&
                    (path == SYSTEM_STATE_DIRS[i] || SYSTEM_STATE_DIRS[i] + "/" <= path))
    || path in SYSTEM_STATE_FILES
    || Contains(path, "/go/telemetry/")
  }

  /** Two subtrees that share a path are nested. */
  lemma SharedPathMeansNested(path: string, a: string, b: string)
    requires Under(path, a) && Under(path, b)
    ensures Under(a, b) || Under(b, a)
  {
    if |a| <= |b| {
      assert a == path[..|a|] == b[..|a|];
      if |a| < |b| { assert b[|a|] == path[|a|]; }
    } else {
      assert b == path[..|b|] == a[..|b|];
      assert a[|b|] == path[|b|];
    }
  }

  /** Where a rename (an exchange when `exchange` holds) moves `path`. */
  function Renamed(path: string, from: string, to: string, exchange: bool): string
  {
    match RewritePrefix(path, from, to)
    case Some(moved) => moved
    case None =>
      if !exchange then path else
      match RewritePrefix(path, to, from)
      case Some(moved) => moved
      case None => path
  }

  predicate Disjoint(a: string, b: string)
  {
    !Under(a, b) && !Under(b, a)
  }

  /**
   A rename moves the subtree to the same place below the new path and nothing else, and renaming back restores exactly
   the paths that were moved or were not already below the new path.
   */
  lemma RenameIsUndoneIff(path: string, from: string, to: string)
    ensures var moved := Renamed(path, from, to, false);
            && (Under(path, from) ==> to <= moved && moved[|to|..] == path[|from|..])
            && (!Under(path, from) ==> moved == path)
            && (Renamed(moved, to, from, false) == path <==> Under(path, from) || !Under(path, to))
  {
    var moved := Renamed(path, from, to, false);
    var back := Renamed(moved, to, from, false);
    if Under(path, from) {
      assert back == from + back[|from|..] == from + path[|from|..] == path;
    }
  }

  /** An exchange swaps two disjoint subtrees and leaves every other path alone. */
  lemma ExchangeSwapsSubtrees(path: string, from: string, to: string)
    requires Disjoint(from, to)
    ensures var moved := Renamed(path, from, to, true);
            && (Under(path, from) <==> Under(moved, to))
            && (Under(path, to) <==> Under(moved, from))
            && (Under(path, from) ==> moved[|to|..] == path[|from|..])
            && (Under(path, to) ==> moved[|from|..] == path[|to|..])
            && (!Under(path, from) && !Under(path, to) ==> moved == path)
  {
    var moved := Renamed(path, from, to, true);
    if Under(path, from) && Under(path, to) { SharedPathMeansNested(path, from, to); }
    if Under(moved, from) && Under(moved, to) { SharedPathMeansNested(moved, from, to); }
  }

  lemma ExchangeUndoesItself(path: string, from: string, to: string)
    requires Disjoint(from, to)
    ensures Renamed(Renamed(path, from, to, true), from, to, true) == path
  {
    var moved := Renamed(path, from, to, true);
    var back := Renamed(moved, from, to, true);
    ExchangeSwapsSubtrees(path, from, to);
    ExchangeSwapsSubtrees(moved, from, to);
    if Under(path, from) {
      assert back == from + back[|from|..] == from + path[|from|..] == path;
    } else if Under(path, to) {
      assert back == to + back[|to|..] == to + path[|to|..] == path;
    }
  }

  /** A path on which an exchange of strictly nested subtrees is not undone by a second one. */
  lemma NestedExchangeIsNotUndone(from: string, to: string) returns (path: string)
    requires from != to && !Disjoint(from, to)
    ensures Renamed(Renamed(path, from, to, true), from, to, true) != path
  {
    if Under(from, to) {
      var s := from[|to|..];
      assert from == to + s;
      path := from + s;
      assert path[|from|..] == s;
      assert Renamed(path, from, to, true) == to + s == from;
    } else {
      path := from;
      var s := to[|from|..];
      assert to == from + s;
      assert Renamed(to, from, to, true) == to + s;
    }
  }

  /** Exactly when an exchange is its own inverse. */
  lemma ExchangeIsInvolutionIff(from: string, to: string)
    ensures (forall path :: Renamed(Renamed(path, from, to, true), from, to, true) == path)
       <==> from == to || Disjoint(from, to)
  {
    if from == to {
      forall path ensures Renamed(path, from, to, true) == path {
        if Under(path, from) { assert from + path[|from|..] == path; }
      }
    } else if Disjoint(from, to) {
      forall path { ExchangeUndoesItself(path, from, to); }
    } else {
      var path := NestedExchangeIsNotUndone(from, to);
    }
  }
}
