/**
 * The pointer-down listener registry of the viewport: an insertion-ordered
 * set of registrations, each a fresh entry even when the same listener is
 * registered again. This module holds the entry types and the functions
 * that specify delivery and removal; the Viewport class updates its set
 * through them.
 */
module PointerDownRegistry {
  import opened Coordinates

  /** Listener callbacks are opaque; only their identity matters. */
  type ListenerId = nat

  /** A cancellation signal: it only ever goes from not aborted to aborted. */
  class Signal {
    var aborted: bool

    constructor ()
      ensures !aborted
    {
      aborted := false;
    }
  }

  /** The options a listener is registered with (`signal == null` when none is given). */
  datatype ListenerOptions = ListenerOptions(once: bool, signal: Signal?)

  /**
   * One member of the set. `id` stands for the identity of the fresh entry
   * object each registration creates.
   */
  datatype Registration = Registration(id: nat, listener: ListenerId, options: ListenerOptions)

  /** One call of a listener: which entry fired, its listener, and the position it was given. */
  datatype Invocation = Invocation(registration: nat, listener: ListenerId, position: PointerPosition)

  /** No two entries share an identity. */
  predicate DistinctIds(es: seq<Registration>)
  {
    forall i, j :: 0 <= i < j < |es| ==> es[i].id != es[j].id
  }

  /** The registry invariant: distinct identities, all below the next identity to hand out. */
  predicate IdsBelow(es: seq<Registration>, nextId: nat)
  {
    DistinctIds(es) && forall i :: 0 <= i < |es| ==> es[i].id < nextId
  }

  /** The signals the entries were registered with. */
  function SignalsOf(es: seq<Registration>): set<Signal>
  {
    set e | e in es && e.options.signal != null :: e.options.signal
  }

  /**
   * No entry is registered with an aborted signal: an entry is added only
   * while its signal is not aborted, and its signal's abort deletes it.
   */
  ghost predicate NoneAborted(es: seq<Registration>)
    reads SignalsOf(es)
  {
    forall e :: e in es && e.options.signal != null ==> !e.options.signal.aborted
  }

  /** Appending an entry whose signal is not aborted keeps every signal in the registry live. */
  lemma AppendKeepsNoneAborted(es: seq<Registration>, e: Registration)
    requires NoneAborted(es)
    requires e.options.signal != null ==> !e.options.signal.aborted
    ensures NoneAborted(es + [e])
  {
  }

  /** Deleting entries keeps every signal in the registry live. */
  lemma FilterKeepsNoneAborted(es: seq<Registration>, kept: seq<Registration>)
    requires NoneAborted(es)
    requires forall e :: e in kept ==> e in es
    ensures NoneAborted(kept)
  {
  }

  /** Appending an entry with the next identity keeps the invariant for the identity after it. */
  lemma AppendFreshKeepsIdsBelow(es: seq<Registration>, nextId: nat, e: Registration)
    requires IdsBelow(es, nextId) && e.id == nextId
    ensures IdsBelow(es + [e], nextId + 1)
    ensures forall f :: f in es ==> f.id != e.id
  {
  }

  /** Deleting entries keeps the invariant. */
  lemma FilterKeepsIdsBelow(es: seq<Registration>, kept: seq<Registration>, nextId: nat)
    requires IdsBelow(es, nextId) && DistinctIds(kept)
    requires forall e :: e in kept ==> e in es
    ensures IdsBelow(kept, nextId)
  {
    forall i | 0 <= i < |kept| ensures kept[i].id < nextId {
      assert kept[i] in es;
    }
  }

  lemma PersistentKeepsIdsBelow(es: seq<Registration>, nextId: nat)
    requires IdsBelow(es, nextId)
    ensures IdsBelow(Persistent(es), nextId)
  {
    PersistentDistinct(es);
    PersistentMembers(es);
    FilterKeepsIdsBelow(es, Persistent(es), nextId);
  }

  lemma WithoutSignalKeepsIdsBelow(es: seq<Registration>, s: Signal, nextId: nat)
    requires IdsBelow(es, nextId)
    ensures IdsBelow(WithoutSignal(es, s), nextId)
  {
    WithoutSignalDistinct(es, s);
    WithoutSignalMembers(es, s);
    FilterKeepsIdsBelow(es, WithoutSignal(es, s), nextId);
  }

  /**
   * The calls one pointer-down makes: every entry is invoked exactly once,
   * in insertion order, with its listener and the same position.
   */
  function Deliveries(es: seq<Registration>, position: PointerPosition): (calls: seq<Invocation>)
    ensures |calls| == |es|
    ensures forall i :: 0 <= i < |es| ==> calls[i] == Invocation(es[i].id, es[i].listener, position)
  {
    if es == [] then []
    else
      var e := es[|es| - 1];
      Deliveries(es[..|es| - 1], position) + [Invocation(e.id, e.listener, position)]
  }

  /** The entries that survive a pointer-down: those not registered with `once`. */
  function Persistent(es: seq<Registration>): seq<Registration>
  {
    if es == [] then []
    else
      var e := es[|es| - 1];
      Persistent(es[..|es| - 1]) + (if e.options.once then [] else [e])
  }

  /** The set after every entry registered with signal `s` is deleted. */
  function WithoutSignal(es: seq<Registration>, s: Signal): seq<Registration>
  {
    if es == [] then []
    else
      var e := es[|es| - 1];
      WithoutSignal(es[..|es| - 1], s) + (if e.options.signal == s then [] else [e])
  }

  /** Walking one more entry of `es` adds its call, and keeps it unless it is `once`. */
  lemma DeliveryStep(es: seq<Registration>, n: nat, position: PointerPosition)
    requires n < |es|
    ensures Deliveries(es[..n + 1], position) == Deliveries(es[..n], position) + [Invocation(es[n].id, es[n].listener, position)]
    ensures Persistent(es[..n + 1]) == Persistent(es[..n]) + (if es[n].options.once then [] else [es[n]])
  {
    assert es[..n + 1][..n] == es[..n];
  }

  /**
   * The live set during a walk is the survivors `kept` of the visited
   * entries followed by the unvisited `rest`, with the cursor on `rest[0]`:
   * deleting the entry under the cursor, or stepping past it, leaves the
   * same shape one entry further on.
   */
  lemma CursorStep(kept: seq<Registration>, rest: seq<Registration>)
    requires |rest| > 0
    ensures (kept + rest)[|kept|] == rest[0]
    ensures (kept + rest)[..|kept|] + (kept + rest)[|kept| + 1..] == kept + rest[1..]
    ensures kept + rest == (kept + [rest[0]]) + rest[1..]
  {
    assert (kept + rest)[..|kept|] == kept;
    assert (kept + rest)[|kept| + 1..] == rest[1..];
  }

  /**
   * The live set after a pointer-down has walked the first `visited`
   * entries of `registered`: the survivors so far, then the entries not yet
   * reached.
   */
  function Live(registered: seq<Registration>, visited: nat): seq<Registration>
    requires visited <= |registered|
  {
    Persistent(registered[..visited]) + registered[visited..]
  }

  /**
   * One step of the walk: the cursor, just past the survivors, is on the
   * next entry; deleting it (a `once` entry) or stepping past it gives the
   * live set one entry further on, and the entry's call is appended.
   */
  lemma WalkStep(registered: seq<Registration>, visited: nat, position: PointerPosition)
    requires visited < |registered|
    ensures |Persistent(registered[..visited])| < |Live(registered, visited)|
    ensures Live(registered, visited)[|Persistent(registered[..visited])|] == registered[visited]
    ensures registered[visited].options.once ==>
      && Live(registered, visited)[..|Persistent(registered[..visited])|]
           + Live(registered, visited)[|Persistent(registered[..visited])| + 1..]
         == Live(registered, visited + 1)
      && |Persistent(registered[..visited + 1])| == |Persistent(registered[..visited])|
    ensures !registered[visited].options.once ==>
      && Live(registered, visited) == Live(registered, visited + 1)
      && |Persistent(registered[..visited + 1])| == |Persistent(registered[..visited])| + 1
    ensures Deliveries(registered[..visited + 1], position)
      == Deliveries(registered[..visited], position)
         + [Invocation(registered[visited].id, registered[visited].listener, position)]
  {
    CursorStep(Persistent(registered[..visited]), registered[visited..]);
    DeliveryStep(registered, visited, position);
    assert registered[visited..][1..] == registered[visited + 1..];
  }

  /** Exactly the entries not registered with `once` survive a delivery. */
  lemma {:induction false} PersistentMembers(es: seq<Registration>)
    ensures forall e :: e in Persistent(es) ==> e in es && !e.options.once
    ensures forall e :: e in es ==> e in Persistent(es) || e.options.once
  {
    if es != [] {
      var init := es[..|es| - 1];
      PersistentMembers(init);
      assert es == init + [es[|es| - 1]];
    }
  }

  /** `a` occurs in `es` at an earlier position than `b`. */
  ghost predicate Precedes(es: seq<Registration>, a: Registration, b: Registration)
  {
    exists i, j :: 0 <= i < j < |es| && es[i] == a && es[j] == b
  }

  /** Any two entries of `sub`, in their order there, appear in that order in `es`. */
  ghost predicate OrderedIn(sub: seq<Registration>, es: seq<Registration>)
  {
    forall i, j :: 0 <= i < j < |sub| ==> Precedes(es, sub[i], sub[j])
  }

  /** Extending `es` by one entry keeps `sub` ordered in it, with or without that entry appended to `sub`. */
  lemma AppendOrdered(sub: seq<Registration>, es: seq<Registration>, last: Registration)
    requires OrderedIn(sub, es)
    requires forall e :: e in sub ==> e in es
    ensures OrderedIn(sub, es + [last])
    ensures OrderedIn(sub + [last], es + [last])
  {
    var es' := es + [last];
    var sub' := sub + [last];
    forall i, j | 0 <= i < j < |sub|
      ensures Precedes(es', sub[i], sub[j])
    {
      assert Precedes(es, sub[i], sub[j]);
      var i', j' :| 0 <= i' < j' < |es| && es[i'] == sub[i] && es[j'] == sub[j];
      assert es'[i'] == sub[i] && es'[j'] == sub[j];
    }
    forall i | 0 <= i < |sub|
      ensures Precedes(es', sub[i], last)
    {
      assert sub[i] in es;
      var i' :| 0 <= i' < |es| && es[i'] == sub[i];
      assert es'[i'] == sub[i] && es'[|es|] == last;
    }
    forall i, j | 0 <= i < j < |sub'|
      ensures Precedes(es', sub'[i], sub'[j])
    {
      if j < |sub| {
        assert sub'[i] == sub[i] && sub'[j] == sub[j];
      } else {
        assert sub'[i] == sub[i] && sub'[j] == last;
      }
    }
  }

  /** A delivery keeps the survivors in their original order: it is a subsequence. */
  lemma {:induction false} PersistentIsSubsequence(es: seq<Registration>)
    ensures |Persistent(es)| <= |es|
    ensures OrderedIn(Persistent(es), es)
  {
    if es != [] {
      var init := es[..|es| - 1];
      var last := es[|es| - 1];
      PersistentIsSubsequence(init);
      PersistentMembers(init);
      AppendOrdered(Persistent(init), init, last);
      assert es == init + [last];
    }
  }

  /** After one delivery no `once` entry is left, so a second delivery changes nothing. */
  lemma PersistentIdempotent(es: seq<Registration>)
    ensures Persistent(Persistent(es)) == Persistent(es)
  {
    PersistentMembers(es);
    var p := Persistent(es);
    assert forall i :: 0 <= i < |p| ==> p[i] in p;
    NoOnceIsPersistent(p);
  }

  lemma {:induction false} NoOnceIsPersistent(es: seq<Registration>)
    requires forall i :: 0 <= i < |es| ==> !es[i].options.once
    ensures Persistent(es) == es
  {
    if es != [] {
      var init := es[..|es| - 1];
      NoOnceIsPersistent(init);
      assert es == init + [es[|es| - 1]];
    }
  }

  /**
   * A `once` entry is never invoked by a second pointer-down: none of the
   * calls made from the surviving set belongs to it.
   */
  lemma OnceNeverRedelivered(es: seq<Registration>, e: Registration, position: PointerPosition)
    requires DistinctIds(es)
    requires e in es && e.options.once
    ensures forall inv :: inv in Deliveries(Persistent(es), position) ==> inv.registration != e.id
  {
    var p := Persistent(es);
    PersistentMembers(es);
    forall inv | inv in Deliveries(p, position)
      ensures inv.registration != e.id
    {
      var n :| 0 <= n < |p| && Deliveries(p, position)[n] == inv;
      var f := p[n];
      assert f in es && !f.options.once;
    }
  }

  /** Aborting a signal removes exactly the entries registered with it and no other. */
  lemma {:induction false} WithoutSignalMembers(es: seq<Registration>, s: Signal)
    ensures forall e :: e in WithoutSignal(es, s) ==> e in es && e.options.signal != s
    ensures forall e :: e in es ==> e in WithoutSignal(es, s) || e.options.signal == s
  {
    if es != [] {
      var init := es[..|es| - 1];
      WithoutSignalMembers(init, s);
      assert es == init + [es[|es| - 1]];
    }
  }

  /**
   * Registering with a signal no earlier entry uses, then aborting it,
   * leaves the registry as it was before the registration.
   */
  lemma {:induction false} AbortUndoesRegistration(es: seq<Registration>, e: Registration, s: Signal)
    requires e.options.signal == s
    requires forall i :: 0 <= i < |es| ==> es[i].options.signal != s
    ensures WithoutSignal(es + [e], s) == es
  {
    assert (es + [e])[..|es|] == es;
    UnsignalledKept(es, s);
  }

  lemma {:induction false} UnsignalledKept(es: seq<Registration>, s: Signal)
    requires forall i :: 0 <= i < |es| ==> es[i].options.signal != s
    ensures WithoutSignal(es, s) == es
  {
    if es != [] {
      var init := es[..|es| - 1];
      UnsignalledKept(init, s);
      assert es == init + [es[|es| - 1]];
    }
  }

  /** A subset of a set with distinct identities, kept in order, has distinct identities. */
  lemma {:induction false} FilteredDistinct(kept: seq<Registration>, last: Registration)
    requires DistinctIds(kept) && forall e :: e in kept ==> e.id != last.id
    ensures DistinctIds(kept + [last])
  {
  }

  lemma {:induction false} PersistentDistinct(es: seq<Registration>)
    requires DistinctIds(es)
    ensures DistinctIds(Persistent(es))
  {
    if es != [] {
      var init := es[..|es| - 1];
      PersistentDistinct(init);
      PersistentMembers(init);
      var last := es[|es| - 1];
      forall e | e in Persistent(init) ensures e.id != last.id {
        assert e in init;
        var i :| 0 <= i < |init| && init[i] == e;
        assert es[i] == e;
      }
      if !last.options.once { FilteredDistinct(Persistent(init), last); }
    }
  }

  lemma {:induction false} WithoutSignalDistinct(es: seq<Registration>, s: Signal)
    requires DistinctIds(es)
    ensures DistinctIds(WithoutSignal(es, s))
  {
    if es != [] {
      var init := es[..|es| - 1];
      WithoutSignalDistinct(init, s);
      WithoutSignalMembers(init, s);
      var last := es[|es| - 1];
      forall e | e in WithoutSignal(init, s) ensures e.id != last.id {
        assert e in init;
        var i :| 0 <= i < |init| && init[i] == e;
        assert es[i] == e;
      }
      if last.options.signal != s { FilteredDistinct(WithoutSignal(init, s), last); }
    }
  }
}
