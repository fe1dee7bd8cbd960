/** internal/daemon/quiet.go: the paths the engine has just written itself. */
module Quiet {

  /** Expired marks are deleted when they are next looked at. `marked` is the history: the latest
      Mark of every path ever marked. */
  class QuietSet {
    const ttl: int
    var m: map<string, int>
    ghost var marked: map<string, int>
    ghost var lastNow: int

    ghost predicate Valid()
      reads this
    {
      && (forall p | p in m :: p in marked && m[p] == marked[p])
      && (forall p | p in marked && p !in m :: lastNow - marked[p] > ttl)
    }

    /** The latest mark is no older than the time to live. */
    ghost predicate Within(path: string, now: int)
      reads this
    {
      path in marked && now - marked[path] <= ttl
    }

    constructor (ttl: int)
      ensures Valid() && this.ttl == ttl && marked == map[]
    {
      this.ttl := ttl;
      m, marked, lastNow := map[], map[], 0;
    }

    method Mark(path: string, now: int)
      requires Valid() && now >= lastNow
      modifies this
      ensures Valid() && lastNow == now && marked == old(marked)[path := now]
    {
      m := m[path := now];
      marked := marked[path := now];
      lastNow := now;
    }

    /** Forgetting expired marks is never noticed: the answer is that of the full history. */
    method IsQuiet(path: string, now: int) returns (quiet: bool)
      requires Valid() && now >= lastNow
      modifies this
      ensures Valid() && lastNow == now && marked == old(marked)
      ensures quiet <==> old(Within(path, now))
      ensures quiet <==> path in marked && now - marked[path] <= ttl
    {
      lastNow := now;
      if path !in m {
        return false;
      }
      if now - m[path] > ttl {
        m := m - {path};
        return false;
      }
      quiet := true;
    }
  }
}
