/** The replay guard: a set and a queue that together remember the most recently admitted pairs. */
module Replay {
  import opened Base

  const DEFAULT_REPLAY_CAPACITY := 1024

  type Nonce = seq<Byte>

  datatype Entry = Entry(node: NodeId, nonce: Nonce)

  // The last `n` elements, or all of them.
  function Newest<T>(s: seq<T>, n: nat): (r: seq<T>)
    ensures |r| == Min(|s|, n)
    ensures forall e :: e in r ==> e in s
  {
    if |s| <= n then s else s[|s| - n..]
  }

  // Everything admitted, after one more attempt: refused exactly when among the `capacity` newest.
  function Attempt(capacity: nat, admitted: seq<Entry>, entry: Entry): seq<Entry> {
    if entry in Newest(admitted, capacity) then admitted else admitted + [entry]
  }

  function Attempts(capacity: nat, entries: seq<Entry>): seq<Entry> {
    if entries == [] then []
      else Attempt(capacity, Attempts(capacity, entries[..|entries| - 1]), entries[|entries| - 1])
  }

  ghost predicate Distinct<T>(s: seq<T>) {
    forall i, j :: 0 <= i < j < |s| ==> s[i] != s[j]
  }

  // Equal entries lie more than `capacity` apart.
  ghost predicate Spaced(capacity: nat, admitted: seq<Entry>) {
    forall i, j :: 0 <= i < j < |admitted| && admitted[i] == admitted[j] ==> j - i > capacity
  }

  lemma PoppedSet(order: seq<Entry>, entries: set<Entry>)
    requires order != [] && Distinct(order) && forall entry :: entry in entries <==> entry in order
    ensures forall entry :: entry in entries - {order[0]} <==> entry in order[1..]
  {
    assert order == [order[0]] + order[1..];
  }

  // The window after an admission is the old one with the new entry, less its oldest when over capacity.
  lemma AdmissionSlides(capacity: nat, admitted: seq<Entry>, entry: Entry)
    ensures var grown := Newest(admitted, capacity) + [entry];
            Newest(admitted + [entry], capacity) == if |grown| > capacity then grown[1..] else grown
  {
  }

  lemma NewestHas<T>(s: seq<T>, n: nat, i: nat)
    requires |s| - n <= i < |s|
    ensures s[i] in Newest(s, n)
  {
    if |s| > n {
      assert Newest(s, n)[i - (|s| - n)] == s[i];
    }
  }

  lemma AdmissionIsSpaced(capacity: nat, admitted: seq<Entry>, entry: Entry)
    requires Spaced(capacity, admitted) && entry !in Newest(admitted, capacity)
    ensures Spaced(capacity, admitted + [entry])
  {
    forall i | 0 <= i < |admitted| && admitted[i] == entry ensures |admitted| - i > capacity {
      if i >= |admitted| - capacity {
        NewestHas(admitted, capacity, i);
      }
    }
  }

  class ReplayGuard {
    const capacity: nat
    var order: seq<Entry>
    var entries: set<Entry>
    // Every pair admitted so far, oldest first.
    ghost var admitted: seq<Entry>

    ghost predicate Valid()
      reads this
    {
      && order == Newest(admitted, capacity)
      && Distinct(order)
      && (forall entry :: entry in entries <==> entry in order)
      && Spaced(capacity, admitted)
    }

    constructor ()
      ensures Valid() && admitted == [] && capacity == DEFAULT_REPLAY_CAPACITY
    {
      capacity, order, entries, admitted := DEFAULT_REPLAY_CAPACITY, [], {}, [];
    }

    /** Admits a pair unless it is among the `capacity` most recently admitted ones, and remembers it. */
    method Admit(node: NodeId, nonce: Nonce) returns (ok: bool)
      requires Valid()
      modifies this
      ensures Valid()
      ensures ok <==> Entry(node, nonce) !in Newest(old(admitted), capacity)
      ensures admitted == Attempt(capacity, old(admitted), Entry(node, nonce))
      ensures !ok ==> order == old(order) && entries == old(entries)
    {
      var entry := Entry(node, nonce);
      if entry in entries {
        return false;
      }
      AdmissionIsSpaced(capacity, admitted, entry);
      AdmissionSlides(capacity, admitted, entry);
      entries := entries + {entry};
      order := order + [entry];
      admitted := admitted + [entry];
      if |order| > capacity {
        var expired := order[0];
        PoppedSet(order, entries);
        order := order[1..];
        entries := entries - {expired};
      }
      return true;
    }
  }

  /** Over any attempts, a pair is admitted again only after at least `capacity` others have been in between. */
  lemma {:induction false} ReadmissionsAreFarApart(capacity: nat, entries: seq<Entry>)
    ensures Spaced(capacity, Attempts(capacity, entries))
  {
    if entries != [] {
      var before := entries[..|entries| - 1];
      ReadmissionsAreFarApart(capacity, before);
      var admitted, entry := Attempts(capacity, before), entries[|entries| - 1];
      if entry !in Newest(admitted, capacity) {
        AdmissionIsSpaced(capacity, admitted, entry);
      }
    }
  }

  /** No pair attempted is lost: each was admitted at some point, and nothing else was. */
  lemma {:induction false} AdmittedAreAttempted(capacity: nat, entries: seq<Entry>)
    ensures forall entry :: entry in Attempts(capacity, entries) <==> entry in entries
  {
    if entries != [] {
      var before := entries[..|entries| - 1];
      AdmittedAreAttempted(capacity, before);
      assert entries == before + [entries[|entries| - 1]];
    }
  }
}
