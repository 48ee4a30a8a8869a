/** `SessionManager`: a pool of named backend connections handed out in
    round-robin order. */
module Sessions {
  import opened Wrappers
  import opened Lists

  /** Stand-in for a connected `TelegramClient`, built from its session string. */
  datatype Client = Client(sessionString: string)

  /** The cursor after one advance in a rotation over `n` names. */
  function NextIndex(i: nat, n: nat): (j: nat)
    requires n > 0
    ensures j < n
    ensures i + 1 < n ==> j == i + 1
    ensures i + 1 == n ==> j == 0
  {
    (i + 1) % n
  }

  /** The cursors of `k` consecutive advances starting from cursor `i`. */
  function Visits(i: nat, n: nat, k: nat): (v: seq<nat>)
    requires n > 0
    ensures |v| == k
    ensures forall m :: 0 <= m < k ==> v[m] < n
    decreases k
  {
    if k == 0 then [] else [NextIndex(i, n)] + Visits(NextIndex(i, n), n, k - 1)
  }

  /** `x mod n` for `0 <= x < 2n`. */
  function Wrap(x: nat, n: nat): nat {
    if x < n then x else x - n
  }

  /** From a cursor in range, the `m`-th advance lands on `(i + m + 1) mod n`. */
  lemma {:induction false} VisitsAt(i: nat, n: nat, k: nat, m: nat)
    requires i < n && m < k <= n
    ensures Visits(i, n, k)[m] == Wrap(i + m + 1, n)
    decreases m
  {
    if m > 0 {
      VisitsAt(NextIndex(i, n), n, k - 1, m - 1);
    }
  }

  /** `n` consecutive calls on a pool of `n` names, with no registration or
      removal in between, visit every position exactly once, whatever the
      starting cursor (it may lie beyond the list after a removal). */
  lemma EveryIndexOnce(i: nat, n: nat)
    requires n > 0
    ensures var v := Visits(i, n, n);
      && |v| == n
      && (forall t :: 0 <= t < n ==> t in v)
      && Distinct(v)
  {
    // Only the first advance depends on `i`; restart from the cursor in range
    // that leads to the same position.
    var j0 := NextIndex(i, n);
    var i' := if j0 == 0 then n - 1 else j0 - 1;
    assert NextIndex(i', n) == j0;
    assert Visits(i, n, n) == Visits(i', n, n);
    var v := Visits(i', n, n);
    forall t | 0 <= t < n
      ensures t in v
    {
      var m := if t > i' then t - i' - 1 else t + n - i' - 1;
      VisitsAt(i', n, n, m);
    }
    forall a, b | 0 <= a < b < n
      ensures v[a] != v[b]
    {
      VisitsAt(i', n, n, a);
      VisitsAt(i', n, n, b);
    }
  }

  /** The cursor after `k` advances. */
  function Advance(i: nat, n: nat, k: nat): (j: nat)
    requires n > 0
    ensures k > 0 ==> j < n
    decreases k
  {
    if k == 0 then i else Advance(NextIndex(i, n), n, k - 1)
  }

  /** `a + b` advances are `a` advances followed by `b` more. */
  lemma {:induction false} VisitsSplit(i: nat, n: nat, a: nat, b: nat)
    requires n > 0
    ensures Visits(i, n, a + b) == Visits(i, n, a) + Visits(Advance(i, n, a), n, b)
    decreases a
  {
    if a > 0 {
      VisitsSplit(NextIndex(i, n), n, a - 1, b);
      assert a + b - 1 == (a - 1) + b;
    }
  }

  /** From a cursor in range, `m <= n` advances land on `(i + m) mod n`. */
  lemma {:induction false} AdvanceWraps(i: nat, n: nat, m: nat)
    requires i < n && m <= n
    ensures Advance(i, n, m) == Wrap(i + m, n)
    decreases m
  {
    if m > 0 {
      AdvanceWraps(NextIndex(i, n), n, m - 1);
    }
  }

  /** Fewer than a full round of advances from a cursor in range never
      repeat a position. */
  lemma PartialRoundDistinct(i: nat, n: nat, k: nat)
    requires i < n && k <= n
    ensures Distinct(Visits(i, n, k))
  {
    var v := Visits(i, n, k);
    forall a, b | 0 <= a < b < k
      ensures v[a] != v[b]
    {
      VisitsAt(i, n, k, a);
      VisitsAt(i, n, k, b);
    }
  }

  /** `q` full rounds of `n` calls followed by `r` more. */
  function Calls(q: nat, n: nat, r: nat): nat {
    if q == 0 then r else n + Calls(q - 1, n, r)
  }

  /** That is `q * n + r` calls. */
  lemma {:induction false} CallsCount(q: nat, n: nat, r: nat)
    ensures Calls(q, n, r) == q * n + r
  {
    if q > 0 {
      CallsCount(q - 1, n, r);
    }
  }

  /** A full round of advances brings a cursor in range back to where it was. */
  lemma FullRoundReturns(i: nat, n: nat)
    requires i < n
    ensures Advance(i, n, n) == i
  {
    AdvanceWraps(i, n, n);
  }

  /** A full round from a cursor in range hands out each position once more. */
  lemma FullRoundAddsOne(i: nat, n: nat, rest: nat, t: nat)
    requires i < n && t < n
    ensures multiset(Visits(i, n, n + rest))[t] == 1 + multiset(Visits(i, n, rest))[t]
  {
    VisitsSplit(i, n, n, rest);
    AdvanceWraps(i, n, n);
    EveryIndexOnce(i, n);
    DistinctCount(Visits(i, n, n), t);
    assert Visits(i, n, n + rest) == Visits(i, n, n) + Visits(i, n, rest);
  }

  /** Less than a full round hands out a position at most once. */
  lemma WithinRound(i: nat, n: nat, r: nat, t: nat)
    requires i < n && r < n && t < n
    ensures multiset(Visits(i, n, r))[t] <= 1
    ensures r == 0 ==> multiset(Visits(i, n, r))[t] == 0
  {
    PartialRoundDistinct(i, n, r);
    DistinctCount(Visits(i, n, r), t);
  }

  /** RotationIsFair for a cursor in range, by induction on the rounds. */
  lemma {:induction false} FairFromInRange(i: nat, n: nat, q: nat, r: nat, t: nat)
    requires i < n && r < n && t < n
    ensures var c := multiset(Visits(i, n, Calls(q, n, r)))[t];
      q <= c <= q + 1 && (r == 0 ==> c == q)
    decreases q
  {
    if q == 0 {
      WithinRound(i, n, r, t);
    } else {
      var rest := Calls(q - 1, n, r);
      assert Calls(q, n, r) == n + rest;
      FullRoundAddsOne(i, n, rest, t);
      FairFromInRange(i, n, q - 1, r, t);
    }
  }

  /** `k = q * n + r` consecutive calls (`r < n`) on a pool of `n` names, with
      no registration or removal in between, hand out each position `q` or
      `q + 1` times, and exactly `q` times when `r == 0`: at least floor(k/n)
      and at most ceil(k/n) times, whatever the starting cursor. */
  lemma RotationIsFair(i: nat, n: nat, q: nat, r: nat, t: nat)
    requires r < n && t < n
    ensures var c := multiset(Visits(i, n, q * n + r))[t];
      q <= c <= q + 1 && (r == 0 ==> c == q)
  {
    CallsCount(q, n, r);
    var k := Calls(q, n, r);
    // only the first advance depends on `i`
    var j0 := NextIndex(i, n);
    var i' := if j0 == 0 then n - 1 else j0 - 1;
    assert NextIndex(i', n) == j0;
    assert Visits(i, n, k) == Visits(i', n, k);
    FairFromInRange(i', n, q, r, t);
  }

  /** Every name the map holds is in the rotation list. */
  ghost predicate Registered(sessions: map<string, Client>, active: seq<string>) {
    forall name :: name in sessions ==> name in active
  }

  /** Every name in the rotation list has a connection. */
  ghost predicate AllActiveConnected(sessions: map<string, Client>, active: seq<string>) {
    forall name :: name in active ==> name in sessions
  }

  /** What the next call hands out, without advancing. */
  function PeekNext(sessions: map<string, Client>, active: seq<string>, cursor: nat): (c: Option<Client>)
    ensures |active| == 0 ==> c.None?
    ensures |active| > 0 && AllActiveConnected(sessions, active) ==> c.Some?
    ensures c.Some? ==> exists name :: name in active && name in sessions && c.value == sessions[name]
  {
    if |active| == 0 then None
    else
      var name := active[NextIndex(cursor, |active|)];
      if name in sessions then Some(sessions[name]) else None
  }

  class SessionManager {
    var sessions: map<string, Client>
    var activeSessions: seq<string>
    var rotationIndex: nat

    ghost predicate Valid()
      reads this
    {
      Registered(sessions, activeSessions)
    }

    constructor ()
      ensures Valid()
      ensures sessions == map[] && activeSessions == [] && rotationIndex == 0
    {
      sessions := map[];
      activeSessions := [];
      rotationIndex := 0;
    }

    /** `add_session` as written: the name `StringSession` is never imported,
        so building the client raises `NameError`, the handler catches it, and
        the call always reports failure without registering anything. */
    method AddSessionAsWritten(sessionString: string, name: string) returns (ok: bool)
      ensures !ok
    {
      return false;
    }

    /** `add_session` with the import in place. `authorized` stands for the
        outcome of connecting and `is_user_authorized` (a failed connection
        counts as not authorised). */
    method AddSession(sessionString: string, name: string, authorized: bool) returns (ok: bool)
      requires Valid()
      modifies this
      ensures Valid()
      ensures ok == authorized
      ensures ok ==> sessions == old(sessions)[name := Client(sessionString)]
                     && activeSessions == old(activeSessions) + [name]
      ensures !ok ==> sessions == old(sessions) && activeSessions == old(activeSessions)
      ensures rotationIndex == old(rotationIndex)
      ensures old(AllActiveConnected(sessions, activeSessions)) ==> AllActiveConnected(sessions, activeSessions)
    {
      if !authorized {
        return false;
      }
      var client := Client(sessionString);
      sessions := sessions[name := client];
      activeSessions := activeSessions + [name];
      return true;
    }

    /** `get_next_client`: advance the cursor and hand out the connection of
        the name under it; None when the list is empty or the name has lost
        its connection. */
    method GetNextClient() returns (c: Option<Client>)
      modifies this
      ensures sessions == old(sessions) && activeSessions == old(activeSessions)
      ensures c == PeekNext(sessions, activeSessions, old(rotationIndex))
      ensures |activeSessions| == 0 ==> c.None? && rotationIndex == old(rotationIndex)
      ensures |activeSessions| > 0 ==>
        && rotationIndex == NextIndex(old(rotationIndex), |activeSessions|)
        && rotationIndex < |activeSessions|
        && c == (if activeSessions[rotationIndex] in sessions
                 then Some(sessions[activeSessions[rotationIndex]]) else None)
    {
      if |activeSessions| == 0 {
        return None;
      }
      rotationIndex := (rotationIndex + 1) % |activeSessions|;
      var name := activeSessions[rotationIndex];
      c := if name in sessions then Some(sessions[name]) else None;
    }

    /** `remove_session`: disconnect and forget a known name; report False for
        an unknown one. One occurrence of the name leaves the rotation list. */
    method RemoveSession(name: string) returns (ok: bool)
      requires Valid()
      modifies this
      ensures Valid()
      ensures ok == (name in old(sessions))
      ensures ok ==> sessions == old(sessions) - {name}
                     && activeSessions == RemoveFirst(old(activeSessions), name)
      ensures !ok ==> sessions == old(sessions) && activeSessions == old(activeSessions)
      ensures rotationIndex == old(rotationIndex)
      ensures old(AllActiveConnected(sessions, activeSessions)) && old(Distinct(activeSessions))
              ==> AllActiveConnected(sessions, activeSessions)
    {
      if name !in sessions {
        return false;
      }
      sessions := sessions - {name};
      if name in activeSessions {
        if Distinct(activeSessions) {
          RemoveFirstDistinct(activeSessions, name);
        }
        activeSessions := RemoveFirst(activeSessions, name);
      }
      return true;
    }
  }

  /** Registering one name twice and removing it once leaves the name in the
      rotation list without a connection: the next call that lands on it
      hands out nothing although the list is not empty. */
  lemma DuplicateNameLeavesDanglingEntry(s: string)
    ensures var sessions := map["a" := Client(s)][ "a" := Client(s)] - {"a"};
      var active := RemoveFirst(["a"] + ["a"], "a");
      active == ["a"] && PeekNext(sessions, active, 0).None?
  {
    assert RemoveFirst(["a", "a"], "a") == ["a"];
  }

  /** The scenario of three sessions with the cursor at 0: the calls land on
      positions 1, 2 and 0. */
  lemma ThreeSessionsWrapAround()
    ensures Visits(0, 3, 3) == [1, 2, 0]
  {
  }
}
