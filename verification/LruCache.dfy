/** The in-process LRU cache with time-to-live, and what its callers may rely on. */
module LruCache {
  import opened Common

  datatype Entry<V> = Entry(key: string, value: V, expiresAt: Option<real>)

  /** What one call did, as its caller saw it. */
  datatype Event<V> =
    | SetTo(key: string, value: V, expiresAt: Option<real>)
    | Hit(key: string, now: real, value: V)
    | Miss(key: string, now: real)
    | Deleted(key: string)
    | Cleared

  predicate Expired(expiresAt: Option<real>, now: real) { expiresAt.Some? && expiresAt.value <= now }

  // ---------------------------------------------------------------------
  // The ordered dictionary, oldest first
  // ---------------------------------------------------------------------

  function Lookup<V>(store: seq<Entry<V>>, key: string): (found: Option<Entry<V>>)
    ensures found.Some? ==> found.value in store && found.value.key == key
  {
    if store == [] then None
    else if store[|store| - 1].key == key then Some(store[|store| - 1])
    else Lookup(store[..|store| - 1], key)
  }

  function Remove<V>(store: seq<Entry<V>>, key: string): (rest: seq<Entry<V>>)
    ensures |rest| <= |store|
  {
    if store == [] then []
    else
      var front, last := store[..|store| - 1], store[|store| - 1];
      if last.key == key then Remove(front, key) else Remove(front, key) + [last]
  }

  function Trim<V>(store: seq<Entry<V>>, maxSize: nat): seq<Entry<V>> {
    if |store| > maxSize then store[|store| - maxSize..] else store
  }

  /** The keys that come after the last entry of this key. */
  ghost function After<V>(store: seq<Entry<V>>, key: string): set<string> {
    if store == [] || store[|store| - 1].key == key then {}
    else After(store[..|store| - 1], key) + {store[|store| - 1].key}
  }

  ghost predicate OnePerKey<V>(store: seq<Entry<V>>) {
    store != [] ==>
      OnePerKey(store[..|store| - 1]) && Lookup(store[..|store| - 1], store[|store| - 1].key).None?
  }

  function Apply<V>(maxSize: nat, store: seq<Entry<V>>, e: Event<V>): seq<Entry<V>> {
    match e
    case SetTo(key, value, expiresAt) => Trim(Remove(store, key) + [Entry(key, value, expiresAt)], maxSize)
    case Hit(key, now, value) =>
      var found := Lookup(store, key);
      if found.Some? then Remove(store, key) + [found.value] else store
    case Miss(key, now) => Remove(store, key)
    case Deleted(key) => Remove(store, key)
    case Cleared => []
  }

  /** A hit found a live entry with this value; a miss found none, or an expired one. */
  predicate Truthful<V(==)>(store: seq<Entry<V>>, e: Event<V>) {
    match e
    case Hit(key, now, value) =>
      var found := Lookup(store, key);
      found.Some? && !Expired(found.value.expiresAt, now) && found.value.value == value
    case Miss(key, now) =>
      var found := Lookup(store, key);
      found.Some? ==> Expired(found.value.expiresAt, now)
    case _ => true
  }

  function Replay<V>(maxSize: nat, events: seq<Event<V>>): seq<Entry<V>> {
    if events == [] then [] else Apply(maxSize, Replay(maxSize, events[..|events| - 1]), events[|events| - 1])
  }

  /** A history the cache can really have. */
  ghost predicate Observed<V>(maxSize: nat, events: seq<Event<V>>) {
    events != [] ==>
      var front := events[..|events| - 1];
      Observed(maxSize, front) && Truthful(Replay(maxSize, front), events[|events| - 1])
  }

  // ---------------------------------------------------------------------
  // The reference: one key at a time, from the history alone
  // ---------------------------------------------------------------------

  /** newer: the other keys set or hit since this key was, and not removed since. */
  datatype Tracked<V> = Tracked(value: V, expiresAt: Option<real>, newer: set<string>)

  /** A key lives until it is removed, or a set makes maxSize other keys newer than it. */
  ghost function Live<V>(maxSize: nat, events: seq<Event<V>>, key: string): Option<Tracked<V>> {
    if events == [] then None
    else LiveNext(maxSize, Live(maxSize, events[..|events| - 1], key), events[|events| - 1], key)
  }

  ghost function LiveNext<V>(maxSize: nat, before: Option<Tracked<V>>, e: Event<V>, key: string): Option<Tracked<V>> {
    match e
    case SetTo(k, value, expiresAt) =>
      if k == key then Some(Tracked(value, expiresAt, {}))
      else if before.None? || |before.value.newer + {k}| >= maxSize then None
      else Some(before.value.(newer := before.value.newer + {k}))
    case Hit(k, now, value) =>
      if before.None? then None
      else Some(before.value.(newer := if k == key then {} else before.value.newer + {k}))
    case Miss(k, now) =>
      if k == key || before.None? then None else Some(before.value.(newer := before.value.newer - {k}))
    case Deleted(k) =>
      if k == key || before.None? then None else Some(before.value.(newer := before.value.newer - {k}))
    case Cleared => None
  }

  // ---------------------------------------------------------------------
  // Dictionary lemmas
  // ---------------------------------------------------------------------

  lemma {:induction false} LookupFinds<V>(store: seq<Entry<V>>, e: Entry<V>)
    requires e in store
    ensures Lookup(store, e.key).Some?
  {
    var front, last := store[..|store| - 1], store[|store| - 1];
    assert store == front + [last];
    if last.key != e.key {
      LookupFinds(front, e);
    }
  }

  lemma {:induction false} AfterArePresent<V>(store: seq<Entry<V>>, key: string, other: string)
    requires other in After(store, key)
    ensures Lookup(store, other).Some?
  {
    if store[|store| - 1].key != other {
      AfterArePresent(store[..|store| - 1], key, other);
    }
  }

  /** The oldest key is the one with everything else after it. */
  lemma {:induction false} AfterSize<V>(store: seq<Entry<V>>, key: string)
    requires OnePerKey(store) && Lookup(store, key).Some?
    ensures |After(store, key)| <= |store| - 1
    ensures |After(store, key)| == |store| - 1 <==> store[0].key == key
  {
    var n := |store| - 1;
    var front, last := store[..n], store[n].key;
    if last == key {
      if n > 0 {
        LookupFinds(front, front[0]);
      }
    } else {
      AfterSize(front, key);
      if last in After(front, key) {
        AfterArePresent(front, key, last);
      }
    }
  }

  ghost predicate Without<V>(entries: seq<Entry<V>>, key: string) {
    forall i | 0 <= i < |entries| :: entries[i].key != key
  }

  lemma {:induction false} RemoveWithout<V>(store: seq<Entry<V>>, key: string)
    ensures Without(Remove(store, key), key)
  {
    if store == [] {
    } else {
      RemoveWithout(store[..|store| - 1], key);
    }
  }

  lemma {:induction false} RemoveKeeps<V>(store: seq<Entry<V>>, key: string, other: string)
    ensures other != key ==> Lookup(Remove(store, key), other) == Lookup(store, other)
    ensures other != key ==> After(Remove(store, key), other) == After(store, other) - {key}
    ensures Lookup(Remove(store, key), key).None?
  {
    if store == [] {
    } else {
      var front, last := store[..|store| - 1], store[|store| - 1];
      RemoveKeeps(front, key, other);
      if last.key != key {
        assert Remove(store, key)[..|Remove(front, key)|] == Remove(front, key);
      }
    }
  }

  lemma {:induction false} RemoveKeepsOne<V>(store: seq<Entry<V>>, key: string)
    requires OnePerKey(store)
    ensures OnePerKey(Remove(store, key))
    ensures |Remove(store, key)| == |store| - (if Lookup(store, key).Some? then 1 else 0)
  {
    if store == [] {
    } else {
      var front, last := store[..|store| - 1], store[|store| - 1];
      RemoveKeepsOne(front, key);
      RemoveKeeps(front, key, last.key);
      if last.key != key {
        assert Remove(store, key)[..|Remove(front, key)|] == Remove(front, key);
      }
    }
  }

  lemma AppendKeeps<V>(store: seq<Entry<V>>, e: Entry<V>, other: string)
    requires OnePerKey(store) && Lookup(store, e.key).None?
    ensures OnePerKey(store + [e])
    ensures Lookup(store + [e], e.key) == Some(e) && After(store + [e], e.key) == {}
    ensures other != e.key ==> Lookup(store + [e], other) == Lookup(store, other)
    ensures other != e.key ==> After(store + [e], other) == After(store, other) + {e.key}
  {
    assert (store + [e])[..|store + [e]| - 1] == store;
  }

  /** Popping the oldest entry loses that key and changes nothing for the others. */
  lemma {:induction false} DropFirst<V>(store: seq<Entry<V>>, key: string)
    requires OnePerKey(store) && store != []
    ensures key == store[0].key ==> Lookup(store[1..], key).None?
    ensures key != store[0].key ==> Lookup(store[1..], key) == Lookup(store, key)
    ensures key != store[0].key && Lookup(store, key).Some? ==> After(store[1..], key) == After(store, key)
  {
    var n := |store| - 1;
    if n > 0 {
      var front := store[..n];
      DropFirst(front, key);
      assert store[1..][..n - 1] == front[1..];
      LookupFinds(front, front[0]);
    }
  }

  lemma {:induction false} DropFirstKeepsOne<V>(store: seq<Entry<V>>)
    requires OnePerKey(store) && store != []
    ensures OnePerKey(store[1..])
  {
    var n := |store| - 1;
    if n > 0 {
      var front := store[..n];
      DropFirstKeepsOne(front);
      assert store[1..][..n - 1] == front[1..];
      LookupFinds(front, front[0]);
      DropFirst(front, store[n].key);
    }
  }

  // ---------------------------------------------------------------------
  // The store is exactly the live keys
  // ---------------------------------------------------------------------

  /** What the store holds for one key is what the history says about it. */
  ghost predicate Agrees<V>(store: seq<Entry<V>>, live: Option<Tracked<V>>, key: string) {
    match live
    case None => Lookup(store, key).None?
    case Some(t) =>
      Lookup(store, key) == Some(Entry(key, t.value, t.expiresAt)) && After(store, key) == t.newer
  }

  ghost predicate Sound<V>(maxSize: nat, store: seq<Entry<V>>) { OnePerKey(store) && |store| <= maxSize }

  lemma SetAgrees<V>(maxSize: nat, store: seq<Entry<V>>, live: Option<Tracked<V>>, e: Event<V>, key: string)
    requires maxSize >= 1 && Sound(maxSize, store) && Agrees(store, live, key) && e.SetTo?
    ensures Sound(maxSize, Apply(maxSize, store, e))
    ensures Agrees(Apply(maxSize, store, e), LiveNext(maxSize, live, e, key), key)
  {
    var entry := Entry(e.key, e.value, e.expiresAt);
    RemoveKeeps(store, e.key, key);
    RemoveKeepsOne(store, e.key);
    AppendKeeps(Remove(store, e.key), entry, key);
    if e.key != key && live.Some? {
      assert live.value.newer - {e.key} + {e.key} == live.value.newer + {e.key};
    }
    TrimAgrees(maxSize, Remove(store, e.key) + [entry], key);
  }

  /** Trimming a store one too large evicts a key exactly when maxSize others are newer. */
  lemma TrimAgrees<V>(maxSize: nat, grown: seq<Entry<V>>, key: string)
    requires maxSize >= 1 && OnePerKey(grown) && 1 <= |grown| <= maxSize + 1
    ensures var trimmed := Trim(grown, maxSize);
      && Sound(maxSize, trimmed)
      && (Lookup(grown, key).None? || |After(grown, key)| >= maxSize ==> Lookup(trimmed, key).None?)
      && (Lookup(grown, key).Some? && |After(grown, key)| < maxSize ==>
            Lookup(trimmed, key) == Lookup(grown, key) && After(trimmed, key) == After(grown, key))
  {
    if Lookup(grown, key).Some? {
      AfterSize(grown, key);
    } else {
      LookupFinds(grown, grown[0]);
    }
    DropFirst(grown, key);
    DropFirstKeepsOne(grown);
  }

  lemma HitAgrees<V>(maxSize: nat, store: seq<Entry<V>>, live: Option<Tracked<V>>, e: Event<V>, key: string)
    requires Sound(maxSize, store) && Agrees(store, live, key) && e.Hit? && Truthful(store, e)
    ensures Sound(maxSize, Apply(maxSize, store, e))
    ensures Agrees(Apply(maxSize, store, e), LiveNext(maxSize, live, e, key), key)
  {
    RemoveKeeps(store, e.key, key);
    RemoveKeepsOne(store, e.key);
    AppendKeeps(Remove(store, e.key), Lookup(store, e.key).value, key);
    if e.key != key && live.Some? {
      assert live.value.newer - {e.key} + {e.key} == live.value.newer + {e.key};
    }
  }

  lemma StepAgrees<V>(maxSize: nat, store: seq<Entry<V>>, live: Option<Tracked<V>>, e: Event<V>, key: string)
    requires maxSize >= 1 && Sound(maxSize, store) && Agrees(store, live, key) && Truthful(store, e)
    ensures Sound(maxSize, Apply(maxSize, store, e))
    ensures Agrees(Apply(maxSize, store, e), LiveNext(maxSize, live, e, key), key)
  {
    match e
    case SetTo(_, _, _) => SetAgrees(maxSize, store, live, e, key);
    case Hit(_, _, _) => HitAgrees(maxSize, store, live, e, key);
    case Miss(k, _) => RemoveKeeps(store, k, key); RemoveKeepsOne(store, k);
    case Deleted(k) => RemoveKeeps(store, k, key); RemoveKeepsOne(store, k);
    case Cleared =>
  }

  /** After any history the cache is within its size and holds exactly the live keys, each with its last value. */
  lemma {:induction false} HoldsExactlyTheLive<V>(maxSize: nat, events: seq<Event<V>>, key: string)
    requires maxSize >= 1 && Observed(maxSize, events)
    ensures Sound(maxSize, Replay(maxSize, events))
    ensures Agrees(Replay(maxSize, events), Live(maxSize, events, key), key)
  {
    if events == [] {
    } else {
      var front := events[..|events| - 1];
      HoldsExactlyTheLive(maxSize, front, key);
      StepAgrees(maxSize, Replay(maxSize, front), Live(maxSize, front, key), events[|events| - 1], key);
    }
  }

  // ---------------------------------------------------------------------
  // Survival
  // ---------------------------------------------------------------------

  /** The key's last value, and every other key set or hit since the key was: nothing about the store. */
  ghost function Touched<V>(events: seq<Event<V>>, key: string): Option<Tracked<V>> {
    if events == [] then None
    else
      var before := Touched(events[..|events| - 1], key);
      match events[|events| - 1]
      case SetTo(k, value, expiresAt) =>
        if k == key then Some(Tracked(value, expiresAt, {}))
        else if before.None? then None else Some(before.value.(newer := before.value.newer + {k}))
      case Hit(k, now, value) =>
        if before.None? then None
        else Some(before.value.(newer := if k == key then {} else before.value.newer + {k}))
      case Miss(k, now) => if k == key then None else before
      case Deleted(k) => if k == key then None else before
      case Cleared => None
  }

  lemma {:induction false} LiveWithinTouched<V>(maxSize: nat, events: seq<Event<V>>, key: string)
    requires maxSize >= 1 && Observed(maxSize, events)
    ensures var live, touched := Live(maxSize, events, key), Touched(events, key);
      && (live.Some? ==> touched.Some? && live.value.value == touched.value.value &&
                         live.value.expiresAt == touched.value.expiresAt && live.value.newer <= touched.value.newer)
      && (touched.Some? && |touched.value.newer| < maxSize ==> live.Some?)
  {
    if events == [] {
    } else {
      var front, e := events[..|events| - 1], events[|events| - 1];
      LiveWithinTouched(maxSize, front, key);
      var live, touched := Live(maxSize, front, key), Touched(front, key);
      if touched.Some? && (e.SetTo? || e.Hit?) && e.key != key {
        Smaller(touched.value.newer, touched.value.newer + {e.key});
        if live.Some? {
          Smaller(live.value.newer + {e.key}, touched.value.newer + {e.key});
        }
      }
      if e.Hit? && e.key == key {
        HoldsExactlyTheLive(maxSize, front, key);
      }
    }
  }

  lemma Smaller(a: set<string>, b: set<string>)
    requires a <= b
    ensures |a| <= |b|
  {
    assert b == a + (b - a);
  }

  /** A key neither removed nor expired still answers with its last value while fewer than maxSize other keys
      were set or hit since it was. */
  lemma Survives<V>(maxSize: nat, events: seq<Event<V>>, key: string, now: real)
    requires maxSize >= 1 && Observed(maxSize, events)
    requires Touched(events, key).Some? && |Touched(events, key).value.newer| < maxSize
    requires !Expired(Touched(events, key).value.expiresAt, now)
    ensures Truthful(Replay(maxSize, events), Hit(key, now, Touched(events, key).value.value))
    ensures !Truthful(Replay(maxSize, events), Miss(key, now))
  {
    LiveWithinTouched(maxSize, events, key);
    HoldsExactlyTheLive(maxSize, events, key);
  }

  /** The bound is tight: with only sets and hits, a key answers exactly while the others are fewer than maxSize. */
  lemma {:induction false} SurvivesExactly<V>(maxSize: nat, events: seq<Event<V>>, key: string)
    requires maxSize >= 1 && Observed(maxSize, events)
    requires forall e | e in events :: e.SetTo? || e.Hit?
    ensures Lookup(Replay(maxSize, events), key).Some? <==>
            Touched(events, key).Some? && |Touched(events, key).value.newer| < maxSize
  {
    HoldsExactlyTheLive(maxSize, events, key);
    LiveWithinTouched(maxSize, events, key);
    if Live(maxSize, events, key).Some? {
      LiveIsTouched(maxSize, events, key);
      AfterSize(Replay(maxSize, events), key);
    }
  }

  lemma {:induction false} LiveIsTouched<V>(maxSize: nat, events: seq<Event<V>>, key: string)
    requires maxSize >= 1 && Live(maxSize, events, key).Some?
    requires forall e | e in events :: e.SetTo? || e.Hit?
    ensures Live(maxSize, events, key) == Touched(events, key)
  {
    if events == [] {
    } else {
      var front, e := events[..|events| - 1], events[|events| - 1];
      assert e in events;
      if e.Hit? || e.key != key {
        LiveIsTouched(maxSize, front, key);
      }
    }
  }

  // ---------------------------------------------------------------------
  // Order
  // ---------------------------------------------------------------------

  /** When (counting calls from 1) the key was last set or hit; 0 for never. */
  function LastUse<V>(events: seq<Event<V>>, key: string): nat {
    if events == [] then 0
    else
      var e := events[|events| - 1];
      if (e.SetTo? || e.Hit?) && e.key == key then |events| else LastUse(events[..|events| - 1], key)
  }

  lemma {:induction false} UsedSoFar<V>(events: seq<Event<V>>, key: string)
    ensures LastUse(events, key) <= |events|
  {
    if events == [] {
    } else {
      UsedSoFar(events[..|events| - 1], key);
    }
  }

  /** Every entry was used later than all before it. */
  ghost predicate ByUse<V>(events: seq<Event<V>>, store: seq<Entry<V>>) {
    store != [] ==>
      var front := store[..|store| - 1];
      ByUse(events, front) && UsedBefore(events, front, store[|store| - 1].key)
  }

  ghost predicate UsedBefore<V>(events: seq<Event<V>>, entries: seq<Entry<V>>, key: string) {
    forall i | 0 <= i < |entries| :: LastUse(events, entries[i].key) < LastUse(events, key)
  }

  lemma {:induction false} RemoveUsedBefore<V>(events: seq<Event<V>>, store: seq<Entry<V>>, key: string, later: string)
    requires UsedBefore(events, store, later)
    ensures UsedBefore(events, Remove(store, key), later)
  {
    if store == [] {
    } else {
      var front := store[..|store| - 1];
      assert forall i | 0 <= i < |front| :: front[i] == store[i];
      RemoveUsedBefore(events, front, key, later);
    }
  }

  lemma {:induction false} RemoveByUse<V>(events: seq<Event<V>>, store: seq<Entry<V>>, key: string)
    requires ByUse(events, store)
    ensures ByUse(events, Remove(store, key))
  {
    if store == [] {
    } else {
      var front, last := store[..|store| - 1], store[|store| - 1];
      RemoveByUse(events, front, key);
      RemoveUsedBefore(events, front, key, last.key);
      if last.key != key {
        assert Remove(store, key)[..|Remove(front, key)|] == Remove(front, key);
      }
    }
  }

  lemma {:induction false} DropByUse<V>(events: seq<Event<V>>, store: seq<Entry<V>>)
    requires ByUse(events, store) && store != []
    ensures ByUse(events, store[1..])
  {
    var n := |store| - 1;
    if n > 0 {
      var front := store[..n];
      DropByUse(events, front);
      assert store[1..][..n - 1] == front[1..];
      assert forall i | 0 <= i < |front[1..]| :: front[1..][i] == front[i + 1];
    }
  }

  /** A call changes the last use of no key but its own. */
  lemma {:induction false} StillByUse<V>(events: seq<Event<V>>, e: Event<V>, store: seq<Entry<V>>)
    requires ByUse(events, store)
    requires e.SetTo? || e.Hit? ==> Without(store, e.key)
    ensures ByUse(events + [e], store)
  {
    assert (events + [e])[..|events + [e]| - 1] == events;
    if store == [] {
    } else {
      var front, last := store[..|store| - 1], store[|store| - 1];
      forall i | 0 <= i < |front| ensures LastUse(events + [e], front[i].key) < LastUse(events + [e], last.key) {
        assert store[i] == front[i];
      }
      StillByUse(events, e, front);
    }
  }

  lemma UseAppends<V>(events: seq<Event<V>>, e: Event<V>, rest: seq<Entry<V>>, entry: Entry<V>)
    requires ByUse(events, rest) && (e.SetTo? || e.Hit?) && entry.key == e.key && Without(rest, e.key)
    ensures ByUse(events + [e], rest + [entry])
  {
    StillByUse(events, e, rest);
    assert (events + [e])[..|events + [e]| - 1] == events;
    assert (rest + [entry])[..|rest + [entry]| - 1] == rest;
    forall i | 0 <= i < |rest| ensures LastUse(events + [e], rest[i].key) < LastUse(events + [e], e.key) {
      UsedSoFar(events, rest[i].key);
    }
  }

  lemma SetByUse<V>(maxSize: nat, events: seq<Event<V>>, store: seq<Entry<V>>, e: Event<V>)
    requires Sound(maxSize, store) && ByUse(events, store) && e.SetTo?
    ensures ByUse(events + [e], Apply(maxSize, store, e))
  {
    RemoveByUse(events, store, e.key);
    RemoveWithout(store, e.key);
    RemoveKeepsOne(store, e.key);
    var grown := Remove(store, e.key) + [Entry(e.key, e.value, e.expiresAt)];
    UseAppends(events, e, Remove(store, e.key), Entry(e.key, e.value, e.expiresAt));
    TrimByUse(events + [e], grown, maxSize);
  }

  lemma TrimByUse<V>(events: seq<Event<V>>, grown: seq<Entry<V>>, maxSize: nat)
    requires ByUse(events, grown) && |grown| <= maxSize + 1
    ensures ByUse(events, Trim(grown, maxSize))
  {
    if |grown| > maxSize {
      DropByUse(events, grown);
    }
  }

  lemma StepByUse<V>(maxSize: nat, events: seq<Event<V>>, store: seq<Entry<V>>, e: Event<V>)
    requires Sound(maxSize, store) && ByUse(events, store) && Truthful(store, e)
    ensures ByUse(events + [e], Apply(maxSize, store, e))
  {
    if e.SetTo? {
      SetByUse(maxSize, events, store, e);
    } else if !e.Cleared? {
      RemoveByUse(events, store, e.key);
      RemoveWithout(store, e.key);
      if e.Hit? {
        UseAppends(events, e, Remove(store, e.key), Lookup(store, e.key).value);
      } else {
        StillByUse(events, e, Remove(store, e.key));
      }
    }
  }

  lemma {:induction false} StoreByUse<V>(maxSize: nat, events: seq<Event<V>>)
    requires maxSize >= 1 && Observed(maxSize, events)
    ensures ByUse(events, Replay(maxSize, events))
  {
    if events == [] {
    } else {
      var front, e := events[..|events| - 1], events[|events| - 1];
      StoreByUse(maxSize, front);
      HoldsExactlyTheLive(maxSize, front, "");
      StepByUse(maxSize, front, Replay(maxSize, front), e);
      assert events == front + [e];
    }
  }

  lemma {:induction false} ByUseAt<V>(events: seq<Event<V>>, store: seq<Entry<V>>, i: nat, j: nat)
    requires ByUse(events, store) && i < j < |store|
    ensures LastUse(events, store[i].key) < LastUse(events, store[j].key)
  {
    var front := store[..|store| - 1];
    if j < |front| {
      ByUseAt(events, front, i, j);
    } else {
      assert store[i] == front[i];
    }
  }

  /** The store is ordered by last set or hit, oldest first. */
  lemma OrderIsRecency<V>(maxSize: nat, events: seq<Event<V>>, i: nat, j: nat)
    requires maxSize >= 1 && Observed(maxSize, events) && i < j < |Replay(maxSize, events)|
    ensures var store := Replay(maxSize, events);
      LastUse(events, store[i].key) < LastUse(events, store[j].key)
  {
    StoreByUse(maxSize, events);
    ByUseAt(events, Replay(maxSize, events), i, j);
  }

  // ---------------------------------------------------------------------
  // The cache
  // ---------------------------------------------------------------------

  /** What get() returns, from the history alone. */
  ghost function Answer<V>(maxSize: nat, events: seq<Event<V>>, key: string, now: real): Option<V> {
    match Live(maxSize, events, key)
    case None => None
    case Some(t) => if Expired(t.expiresAt, now) then None else Some(t.value)
  }

  /** A key just set answers with its value until its expiry, the moment of the expiry excluded. */
  lemma SetAnswers<V>(maxSize: nat, events: seq<Event<V>>, key: string, value: V, expiresAt: Option<real>, now: real)
    requires maxSize >= 1
    ensures Answer(maxSize, events + [SetTo(key, value, expiresAt)], key, now) ==
      if expiresAt == None || now < expiresAt.value then Some(value) else None
  {
    var e := SetTo(key, value, expiresAt);
    assert (events + [e])[..|events|] == events;
  }

  /** A key never set, deleted, found expired or cleared away does not answer. */
  lemma GoneAnswersNone<V>(maxSize: nat, events: seq<Event<V>>, e: Event<V>, key: string, now: real)
    requires e == Deleted(key) || e == Cleared || (e.Miss? && e.key == key)
    ensures Answer<V>(maxSize, [], key, now).None? && Answer(maxSize, events + [e], key, now).None?
  {
    assert (events + [e])[..|events|] == events;
  }

  class Cache<V(==)> {
    const maxSize: nat
    var store: seq<Entry<V>>
    ghost var history: seq<Event<V>>

    ghost predicate Valid()
      reads this
    {
      maxSize >= 1 && Observed(maxSize, history) && store == Replay(maxSize, history)
    }

    constructor (maxSize: nat)
      requires maxSize >= 1
      ensures Valid() && this.maxSize == maxSize && history == [] && store == []
    {
      this.maxSize := maxSize;
      store, history := [], [];
    }

    ghost method Record(e: Event<V>)
      requires maxSize >= 1 && Observed(maxSize, history) && Truthful(Replay(maxSize, history), e)
      requires store == Apply(maxSize, Replay(maxSize, history), e)
      modifies `history
      ensures Valid() && history == old(history) + [e]
    {
      history := history + [e];
      assert history[..|history| - 1] == old(history);
    }

    method Get(key: string, now: real) returns (value: Option<V>)
      requires Valid()
      modifies this
      ensures Valid()
      ensures value == Answer(maxSize, old(history), key, now)
      ensures history == old(history) + [if value.Some? then Hit(key, now, value.value) else Miss(key, now)]
    {
      HoldsExactlyTheLive(maxSize, history, key);
      var entry := Lookup(store, key);
      if entry.None? {
        RemoveAbsent(store, key);
        Record(Miss(key, now));
        return None;
      }
      if Expired(entry.value.expiresAt, now) {
        store := Remove(store, key);
        Record(Miss(key, now));
        return None;
      }
      store := Remove(store, key) + [entry.value];
      Record(Hit(key, now, entry.value.value));
      value := Some(entry.value.value);
    }

    method Set(key: string, value: V, ttl: int, now: real)
      requires Valid()
      modifies this
      ensures Valid() && |store| <= maxSize
      ensures history == old(history) + [SetTo(key, value, if ttl > 0 then Some(now + ttl as real) else None)]
    {
      var expiresAt := if ttl > 0 then Some(now + ttl as real) else None;
      ghost var grown := Remove(store, key) + [Entry(key, value, expiresAt)];
      store := Remove(store, key) + [Entry(key, value, expiresAt)];
      while |store| > maxSize
        invariant Trim(store, maxSize) == Trim(grown, maxSize)
        invariant history == old(history)
      {
        TrimStep(store, maxSize);
        store := store[1..];
      }
      Record(SetTo(key, value, expiresAt));
      HoldsExactlyTheLive(maxSize, history, key);
    }

    method Delete(key: string)
      requires Valid()
      modifies this
      ensures Valid() && history == old(history) + [Deleted(key)]
    {
      store := Remove(store, key);
      Record(Deleted(key));
    }

    method Exists(key: string, now: real) returns (found: bool)
      requires Valid()
      modifies this
      ensures Valid()
      ensures found <==> Answer(maxSize, old(history), key, now).Some?
    {
      var value := Get(key, now);
      found := value.Some?;
    }

    method Clear()
      requires Valid()
      modifies this
      ensures Valid() && store == [] && history == old(history) + [Cleared]
    {
      store := [];
      Record(Cleared);
    }
  }

  lemma TrimStep<V>(store: seq<Entry<V>>, maxSize: nat)
    requires |store| > maxSize
    ensures Trim(store[1..], maxSize) == Trim(store, maxSize)
  {
    assert store[1..][|store| - 1 - maxSize..] == store[|store| - maxSize..];
  }

  lemma {:induction false} RemoveAbsent<V>(store: seq<Entry<V>>, key: string)
    requires Lookup(store, key).None?
    ensures Remove(store, key) == store
  {
    if store == [] {
    } else {
      RemoveAbsent(store[..|store| - 1], key);
      assert store == store[..|store| - 1] + [store[|store| - 1]];
    }
  }
}
