/** The in-process TTL lock table. Time is an integer number of ticks read from one monotonic clock. */
module Locks {
  import opened Domain

  datatype Entry = Entry(owner: string, expires: int)

  type Table = map<string, Entry>

  predicate Live(table: Table, name: string, now: int) {
    name in table && table[name].expires > now
  }

  function Acquired(table: Table, name: string, ttl: int, owner: string, now: int): Table {
    if Live(table, name, now) then table else table[name := Entry(owner, now + ttl)]
  }

  function Released(table: Table, name: string, owner: string): Table {
    if name in table && table[name].owner == owner then table - {name} else table
  }

  /** Two tables no acquire, renew or liveness query at `now` or later can tell apart. */
  ghost predicate SameLocks(a: Table, b: Table, now: int) {
    forall name :: Live(a, name, now) || Live(b, name, now) ==>
      name in a && name in b && a[name] == b[name]
  }

  class MemoryLockManager {
    var locks: Table

    constructor ()
      ensures locks == map[]
    {
      locks := map[];
    }

    /** Drops the entry when it has expired, so a dead holder never blocks a later acquire. */
    method LiveEntry(name: string, now: int) returns (entry: Option<Entry>)
      modifies this
      ensures entry.Some? <==> name in old(locks) && old(locks)[name].expires > now
      ensures entry.Some? ==> entry.value == old(locks)[name]
      ensures locks == if entry.Some? then old(locks) else old(locks) - {name}
      ensures SameLocks(old(locks), locks, now)
    {
      if name in locks && locks[name].expires > now {
        return Some(locks[name]);
      }
      locks := locks - {name};
      return None;
    }

    method Acquire(name: string, ttl: int, owner: string, now: int) returns (ok: bool)
      modifies this
      ensures ok <==> !(name in old(locks) && old(locks)[name].expires > now)
      ensures locks == if ok then old(locks)[name := Entry(owner, now + ttl)] else old(locks)
      ensures locks == Acquired(old(locks), name, ttl, owner, now)
    {
      var entry := LiveEntry(name, now);
      if entry.Some? {
        return false;
      }
      locks := locks[name := Entry(owner, now + ttl)];
      return true;
    }

    method Renew(name: string, ttl: int, owner: string, now: int) returns (ok: bool)
      modifies this
      ensures ok <==> name in old(locks) && old(locks)[name].expires > now && old(locks)[name].owner == owner
      ensures ok ==> locks == old(locks)[name := Entry(owner, now + ttl)]
      ensures !ok ==> SameLocks(old(locks), locks, now)
    {
      var entry := LiveEntry(name, now);
      if entry.None? || entry.value.owner != owner {
        return false;
      }
      locks := locks[name := Entry(owner, now + ttl)];
      return true;
    }

    method Release(name: string, owner: string)
      modifies this
      ensures name in locks <==> name in old(locks) && old(locks)[name].owner != owner
      ensures forall n :: n != name ==> (n in locks <==> n in old(locks))
      ensures forall n :: n in locks ==> locks[n] == old(locks)[n]
      ensures locks == Released(old(locks), name, owner)
    {
      if name in locks && locks[name].owner == owner {
        locks := locks - {name};
      }
    }
  }
}
