/** The hub's table of subscribers: slices that share arrays, changed in place while a fan-out reads them. */
module Hub {
  import opened HubBuffer

  class Subscriber {
    const tenant: nat
    var buffer: seq<Event>

    constructor (tenant: nat)
      ensures this.tenant == tenant && buffer == []
    {
      this.tenant, buffer := tenant, [];
    }
  }

  /** A slice: an array it may share with others, and how much of it it covers. */
  datatype Slice = Slice(items: array<Subscriber?>, len: nat)

  /** A subscriber joins, or the one at that place of the tenant's list leaves, whenever it joined. */
  datatype Churn = Join(tenant: nat, growth: nat) | Leave(tenant: nat, place: nat)

  /** What is left in a buffer after an event is sent to it with nobody receiving meanwhile. */
  function Pushed(buffer: seq<Event>, e: Event): seq<Event> {
    if |buffer| < CAPACITY then buffer + [e] else buffer[1..] + [e]
  }

  /** The channel operations of one round when nobody receives meanwhile. */
  function Round(buffer: seq<Event>, e: Event): seq<Action> {
    if |buffer| < CAPACITY then [Offer(e), Try] else [Offer(e), Try, Drain, Retry]
  }

  lemma RunOne(s: State, a: Action, rest: seq<Action>)
    requires Enabled(s, a)
    ensures Run(s, [a] + rest) == Run(Do(s, a), rest)
  {
    assert ([a] + rest)[1..] == rest;
  }

  /** A round is a run of the channel without the consumer, and it leaves what Pushed says. */
  lemma RoundIsRun(s: State, e: Event)
    requires s.phase.Ready? && |s.buffer| <= CAPACITY
    ensures Run(s, Round(s.buffer, e)).Some?
    ensures var s' := Run(s, Round(s.buffer, e)).value;
            && s'.phase.Ready? && s'.buffer == Pushed(s.buffer, e) && s'.lost == s.lost
            && s'.offered == s.offered + [e]
  {
    var s1 := Do(s, Offer(e));
    var s2 := Do(s1, Try);
    if |s.buffer| < CAPACITY {
      RunOne(s1, Try, []);
      RunOne(s, Offer(e), [Try]);
      assert [Try] + [] == [Try] && [Offer(e)] + [Try] == [Offer(e), Try];
    } else {
      var s3 := Do(s2, Drain);
      RunOne(s3, Retry, []);
      RunOne(s2, Drain, [Retry]);
      RunOne(s1, Try, [Drain, Retry]);
      RunOne(s, Offer(e), [Try, Drain, Retry]);
      assert [Retry] + [] == [Retry] && [Drain] + [Retry] == [Drain, Retry] &&
          [Try] + [Drain, Retry] == [Try, Drain, Retry];
      assert [Offer(e)] + [Try, Drain, Retry] == [Offer(e), Try, Drain, Retry];
    }
  }

  class Table {
    var subs: map<nat, Slice>
    /** Every array ever allocated for a tenant, and how many of its slots have been written. */
    ghost var owner: map<array<Subscriber?>, nat>
    ghost var filled: map<array<Subscriber?>, nat>
    /** Every subscriber ever registered. */
    ghost var members: set<Subscriber>

    /** A slice of the tenant's, current or taken earlier: each slot in it holds some subscriber of that tenant. */
    ghost predicate IsSliceOf(s: Slice, tenant: nat)
      reads this
    {
      SliceIn(owner, filled, s, tenant)
    }

    ghost predicate ArrayOk(a: array<Subscriber?>)
      requires a in owner
      reads this, a
    {
      && a in filled && filled[a] <= a.Length
      && forall i :: 0 <= i < filled[a] ==> a[i] != null && a[i] in members && a[i].tenant == owner[a]
    }

    /** No subscriber holds another tenant's event. */
    ghost predicate Isolated()
      reads this, members
    {
      forall s :: s in members ==> |s.buffer| <= CAPACITY && forall e :: e in s.buffer ==> e.tenant == s.tenant
    }

    /** The subscribers of a tenant, in the order of the slice. */
    ghost function Current(tenant: nat): seq<Subscriber?>
      requires tenant in subs ==> subs[tenant].len <= subs[tenant].items.Length
      reads this, if tenant in subs then {subs[tenant].items} else {}
    {
      if tenant in subs then Contents(subs[tenant]) else []
    }

    ghost predicate Valid()
      reads this, owner.Keys, members
    {
      SlicesOk() && ListsDistinct() && Isolated()
    }

    /** No current list names a subscriber twice. */
    ghost predicate ListsDistinct()
      requires SlicesOk()
      reads this, owner.Keys
    {
      forall t :: t in subs ==> Distinct(Current(t))
    }

    constructor ()
      ensures Valid() && subs == map[] && owner == map[] && members == {}
    {
      subs, owner, filled, members := map[], map[], map[], {};
    }

    /** append: in place where the array has room behind the slice, otherwise into a larger copy. */
    method Subscribe(tenant: nat, growth: nat) returns (s: Subscriber)
      requires Valid()
      modifies this, owner.Keys
      ensures Valid() && fresh(s) && s.tenant == tenant && s.buffer == [] && members == old(members) + {s}
      ensures tenant in subs && Contents(subs[tenant]) == old(Current(tenant)) + [s]
      ensures forall t :: t != tenant ==> Current(t) == old(Current(t))
      ensures Grows(old(owner), old(filled), owner, filled) && fresh(owner.Keys - old(owner).Keys)
    {
      s := Register(tenant);
      Append(tenant, s, growth);
    }

    method Append(tenant: nat, s: Subscriber, growth: nat)
      requires Valid() && s in members && s.tenant == tenant && s !in Current(tenant)
      modifies this`subs, this`filled, this`owner, owner.Keys
      ensures Valid() && tenant in subs && Contents(subs[tenant]) == old(Current(tenant)) + [s]
      ensures forall t :: t != tenant ==> Current(t) == old(Current(t))
      ensures Grows(old(owner), old(filled), owner, filled) && fresh(owner.Keys - old(owner).Keys)
    {
      if tenant in subs && subs[tenant].len < subs[tenant].items.Length {
        AppendInPlace(tenant, s);
      } else {
        AppendCopy(tenant, s, growth);
      }
      assert ListsDistinct() by {
        forall t | t in subs ensures Distinct(Current(t)) {
          assert t != tenant ==> Current(t) == old(Current(t));
        }
      }
    }

    method Register(tenant: nat) returns (s: Subscriber)
      requires Valid()
      modifies this`members
      ensures Valid() && fresh(s) && s.tenant == tenant && s.buffer == [] && members == old(members) + {s}
      ensures s !in Current(tenant) && forall t :: Current(t) == old(Current(t))
    {
      s := new Subscriber(tenant);
      members := members + {s};
      forall a | a in owner ensures ArrayOk(a) {
        assert old(ArrayOk(a));
      }
    }

    ghost predicate SlicesOk()
      reads this, owner.Keys
    {
      && (forall t :: t in subs ==> IsSliceOf(subs[t], t))
      && (forall a :: a in owner ==> ArrayOk(a))
    }

    method AppendInPlace(tenant: nat, s: Subscriber)
      requires SlicesOk() && s in members && s.tenant == tenant
      requires tenant in subs && subs[tenant].len < subs[tenant].items.Length
      modifies this`subs, this`filled, subs[tenant].items
      ensures SlicesOk() && tenant in subs && Contents(subs[tenant]) == old(Current(tenant)) + [s]
      ensures forall t :: t != tenant ==> Current(t) == old(Current(t))
      ensures Grows(owner, old(filled), owner, filled)
    {
      var a, len := subs[tenant].items, subs[tenant].len;
      a[len] := s;
      filled := filled[a := if filled[a] > len then filled[a] else len + 1];
      subs := subs[tenant := Slice(a, len + 1)];
      forall b | b in owner ensures ArrayOk(b) {
        assert old(ArrayOk(b));
      }
      forall t | t != tenant ensures Current(t) == old(Current(t)) {
        assert t in subs ==> subs[t].items != a;
      }
    }

    method AppendCopy(tenant: nat, s: Subscriber, growth: nat)
      requires SlicesOk() && s in members && s.tenant == tenant
      modifies this`subs, this`filled, this`owner
      ensures SlicesOk() && tenant in subs && Contents(subs[tenant]) == old(Current(tenant)) + [s]
      ensures forall t :: t != tenant ==> Current(t) == old(Current(t))
      ensures Grows(old(owner), old(filled), owner, filled) && fresh(owner.Keys - old(owner).Keys)
    {
      var len := if tenant in subs then subs[tenant].len else 0;
      var a := CopyOf(tenant, len, growth, s);
      owner := owner[a := tenant];
      filled := filled[a := len + 1];
      subs := subs[tenant := Slice(a, len + 1)];
      forall b | b in owner ensures ArrayOk(b) {
        assert b != a ==> old(ArrayOk(b));
      }
      assert Contents(subs[tenant]) == a[..len + 1];
    }

    method CopyOf(tenant: nat, len: nat, growth: nat, s: Subscriber) returns (a: array<Subscriber?>)
      requires SlicesOk() && s in members && s.tenant == tenant
      requires len == if tenant in subs then subs[tenant].len else 0
      ensures fresh(a) && a.Length > len && a[..len + 1] == Current(tenant) + [s]
      ensures forall k :: 0 <= k <= len ==> a[k] != null && a[k] in members && a[k].tenant == tenant
    {
      a := new Subscriber?[len + 1 + growth];
      if len > 0 {
        assert ArrayOk(subs[tenant].items);
      }
      var i := 0;
      while i < len
        invariant 0 <= i <= len && a[..i] == Current(tenant)[..i]
        modifies a
      {
        a[i] := subs[tenant].items[i];
        i := i + 1;
      }
      a[len] := s;
      assert a[..len] == Current(tenant);
    }

    /** The slots behind the removed one move up in place; the slot that falls off the end keeps its subscriber. */
    method Unsubscribe(s: Subscriber)
      requires Valid() && s in members
      modifies this`subs, owner.Keys
      ensures Valid()
      ensures Current(s.tenant) == Without(old(Current(s.tenant)), s) && s !in Current(s.tenant)
      ensures forall t :: t != s.tenant ==> Current(t) == old(Current(t))
    {
      WithoutDistinct(Current(s.tenant), s);
      if s.tenant in subs {
        Remove(s);
      }
      forall t | t in subs ensures Distinct(Current(t)) {
        assert t != s.tenant ==> Current(t) == old(Current(t));
      }
    }

    method Remove(s: Subscriber)
      requires SlicesOk() && s in members && s.tenant in subs
      modifies this`subs, subs[s.tenant].items
      ensures SlicesOk()
      ensures Current(s.tenant) == Without(old(Current(s.tenant)), s)
      ensures forall t :: t != s.tenant ==> Current(t) == old(Current(t))
    {
      assert ArrayOk(subs[s.tenant].items);
      var i := Find(subs[s.tenant], s);
      if i < subs[s.tenant].len {
        RemoveAt(s.tenant, i);
      }
      DropEmpty(s.tenant);
    }

    method DropEmpty(tenant: nat)
      requires SlicesOk() && tenant in subs
      modifies this`subs
      ensures SlicesOk() && forall t :: Current(t) == old(Current(t))
    {
      if subs[tenant].len == 0 {
        subs := subs - {tenant};
      }
    }

    method RemoveAt(tenant: nat, i: nat)
      requires SlicesOk() && tenant in subs && i < subs[tenant].len
      modifies this`subs, subs[tenant].items
      ensures SlicesOk() && subs.Keys == old(subs).Keys
      ensures Current(tenant) == old(Current(tenant)[..i] + Current(tenant)[i + 1..])
      ensures forall t :: t != tenant ==> Current(t) == old(Current(t))
    {
      var list := subs[tenant];
      CloseGap(list, i);
      subs := subs[tenant := Slice(list.items, list.len - 1)];
      forall t | t != tenant ensures Current(t) == old(Current(t)) {
        assert t in subs ==> subs[t].items != list.items;
      }
    }

    method Find(list: Slice, s: Subscriber) returns (i: nat)
      requires list.len <= list.items.Length
      ensures i <= list.len && (i < list.len ==> list.items[i] == s)
      ensures Without(Contents(list), s) ==
              if i < list.len then Contents(list)[..i] + Contents(list)[i + 1..] else Contents(list)
    {
      i := 0;
      while i < list.len && list.items[i] != s
        invariant 0 <= i <= list.len && forall k :: 0 <= k < i ==> list.items[k] != s
      {
        i := i + 1;
      }
      WithoutIs(Contents(list), s, i);
    }

    /** The shift of append(list[:i], list[i+1:]...). */
    method CloseGap(list: Slice, i: nat)
      requires SlicesOk() && list.items in owner && IsSliceOf(list, owner[list.items]) &&
               i < list.len <= list.items.Length
      modifies list.items
      ensures SlicesOk()
      ensures list.items[..list.len - 1] == old(Contents(list)[..i] + Contents(list)[i + 1..])
    {
      var a, len := list.items, list.len;
      assert ArrayOk(a);
      ghost var was := a[..];
      var j := i;
      while j < len - 1
        invariant i <= j <= len - 1
        invariant forall k :: 0 <= k < i ==> a[k] == was[k]
        invariant forall k :: i <= k < j ==> a[k] == was[k + 1]
        invariant forall k :: j <= k < a.Length ==> a[k] == was[k]
        modifies a
      {
        a[j] := a[j + 1];
        j := j + 1;
      }
      forall b | b in owner ensures ArrayOk(b) {
        assert old(ArrayOk(b));
      }
    }

    /** The list as it is under the read lock; it may change under the fan-out's hands afterwards. */
    method Snapshot(tenant: nat) returns (found: bool, list: Slice)
      requires Valid()
      ensures found <==> tenant in subs
      ensures found ==> list == subs[tenant] && IsSliceOf(list, tenant)
    {
      found := tenant in subs;
      if found {
        list := subs[tenant];
      } else {
        var none := new Subscriber?[0];
        list := Slice(none, 0);
      }
    }

    /** One round of the fan-out's loop, on a list taken now or earlier. */
    method DeliverAt(list: Slice, i: nat, e: Event) returns (s: Subscriber)
      requires SlicesOk() && Isolated() && IsSliceOf(list, e.tenant) && i < list.len
      modifies members
      ensures Isolated() && s in members && s.tenant == e.tenant && s == list.items[i]
      ensures s.buffer == Pushed(old(s.buffer), e)
      ensures forall o :: o in members && o != s ==> o.buffer == old(o.buffer)
    {
      assert ArrayOk(list.items);
      s := list.items[i];
      if |s.buffer| < CAPACITY {
        s.buffer := s.buffer + [e];
      } else {
        s.buffer := s.buffer[1..];
        s.buffer := s.buffer + [e];
      }
      assert forall o :: o in members && o != s ==> o.buffer == old(o.buffer);
    }

    /** Something another goroutine does between two rounds of the fan-out. */
    method Disturb(churn: Churn)
      requires Valid()
      modifies this, owner.Keys
      ensures Valid() && old(members) <= members && fresh(members - old(members)) && fresh(owner.Keys - old(owner).Keys)
      ensures Grows(old(owner), old(filled), owner, filled)
    {
      match churn {
        case Join(tenant, growth) => var _ := Subscribe(tenant, growth);
        case Leave(tenant, place) =>
          if tenant in subs && place < subs[tenant].len {
            assert ArrayOk(subs[tenant].items);
            Unsubscribe(subs[tenant].items[place]);
          }
      }
    }

    /** All that others do between two rounds. */
    method DisturbAll(churn: seq<Churn>)
      requires Valid()
      modifies this, owner.Keys
      ensures Valid() && old(members) <= members && fresh(members - old(members)) && fresh(owner.Keys - old(owner).Keys)
      ensures Grows(old(owner), old(filled), owner, filled)
    {
      var j := 0;
      while j < |churn|
        invariant 0 <= j <= |churn| && Valid()
        invariant old(members) <= members && fresh(members - old(members)) && fresh(owner.Keys - old(owner).Keys)
        invariant Grows(old(owner), old(filled), owner, filled)
      {
        Disturb(churn[j]);
        j := j + 1;
      }
    }

    /** One round, after all that others did since the one before. */
    method DisturbedRound(list: Slice, i: nat, e: Event, churn: seq<Churn>)
      requires Valid() && IsSliceOf(list, e.tenant) && i < list.len
      modifies this, owner.Keys, members
      ensures Valid() && old(members) <= members && fresh(members - old(members)) && fresh(owner.Keys - old(owner).Keys)
      ensures IsSliceOf(list, e.tenant)
      ensures forall o :: o in old(members) && o.tenant != e.tenant ==> o.buffer == old(o.buffer)
    {
      DisturbAll(churn);
      var _ := DeliverAt(list, i, e);
    }

    method DisturbedLoop(list: Slice, e: Event, churn: seq<seq<Churn>>)
      requires Valid() && IsSliceOf(list, e.tenant)
      modifies this, owner.Keys, members
      ensures Valid() && old(members) <= members
      ensures forall o :: o in old(members) && o.tenant != e.tenant ==> o.buffer == old(o.buffer)
    {
      var i := 0;
      while i < list.len
        invariant 0 <= i <= list.len && Valid() && IsSliceOf(list, e.tenant)
        invariant old(members) <= members && fresh(members - old(members)) && fresh(owner.Keys - old(owner).Keys)
        invariant forall o :: o in old(members) && o.tenant != e.tenant ==> o.buffer == old(o.buffer)
      {
        DisturbedRound(list, i, e, if i < |churn| then churn[i] else []);
        i := i + 1;
      }
    }

    /**
     * The fan-out while others join and leave between its rounds, each gap as many as there are: the list it
     * works on is shifted under it, so a subscriber may be passed over or served twice, but no event crosses
     * tenants.
     */
    method FanOutDisturbed(e: Event, churn: seq<seq<Churn>>)
      requires Valid()
      modifies this, owner.Keys, members
      ensures Valid() && old(members) <= members
      ensures forall o :: o in old(members) && o.tenant != e.tenant ==> o.buffer == old(o.buffer)
    {
      var found, list := Snapshot(e.tenant);
      if found {
        DisturbedLoop(list, e, churn);
      }
    }

    /** The loop of the fan-out on a list that nobody changes. */
    method DeliverAll(list: Slice, e: Event)
      requires SlicesOk() && Isolated() && IsSliceOf(list, e.tenant) && list.len <= list.items.Length
      requires Distinct(Contents(list))
      modifies members
      ensures Isolated()
      ensures forall o :: o in members && o !in Contents(list) ==> o.buffer == old(o.buffer)
      ensures forall o :: o in members && o in Contents(list) ==> o.buffer == Pushed(old(o.buffer), e)
    {
      var i := 0;
      while i < list.len
        invariant 0 <= i <= list.len && Isolated()
        invariant forall o :: o in members && o !in Contents(list)[..i] ==> o.buffer == old(o.buffer)
        invariant forall o :: o in members && o in Contents(list)[..i] ==> o.buffer == Pushed(old(o.buffer), e)
      {
        var s := DeliverAt(list, i, e);
        assert Contents(list)[..i + 1] == Contents(list)[..i] + [s];
        i := i + 1;
      }
      assert Contents(list)[..i] == Contents(list);
    }

    /** Every subscriber of the tenant, and no other, gets the event. */
    method FanOut(e: Event)
      requires Valid()
      modifies members
      ensures Valid()
      ensures forall o :: o in members ==>
                o.buffer == if o in Current(e.tenant) then Pushed(old(o.buffer), e) else old(o.buffer)
      ensures forall o :: o in Current(e.tenant) ==> o in members && o.tenant == e.tenant
    {
      var found, list := Snapshot(e.tenant);
      if !found {
        return;
      }
      assert ArrayOk(list.items);
      DeliverAll(list, e);
    }
  }

  ghost predicate SliceIn(owner: map<array<Subscriber?>, nat>, filled: map<array<Subscriber?>, nat>, s: Slice,
      tenant: nat) {
    s.items in owner && owner[s.items] == tenant && s.items in filled && s.len <= filled[s.items]
  }

  ghost function Contents(s: Slice): seq<Subscriber?>
    requires s.len <= s.items.Length
    reads s.items
  {
    s.items[..s.len]
  }

  predicate Distinct(list: seq<Subscriber?>) {
    forall i, j :: 0 <= i < j < |list| ==> list[i] != list[j]
  }

  /** The list without the first occurrence of s. */
  function Without(list: seq<Subscriber?>, s: Subscriber): seq<Subscriber?> {
    if list == [] then [] else if list[0] == s then list[1..] else [list[0]] + Without(list[1..], s)
  }

  lemma {:induction false} WithoutIs(list: seq<Subscriber?>, s: Subscriber, i: nat)
    requires i <= |list| && (forall k :: 0 <= k < i ==> list[k] != s) && (i < |list| ==> list[i] == s)
    ensures Without(list, s) == if i < |list| then list[..i] + list[i + 1..] else list
  {
    if i > 0 {
      WithoutIs(list[1..], s, i - 1);
      assert i < |list| ==> list[1..][..i - 1] == list[1..i] && list[1..][i..] == list[i + 1..];
      assert list == [list[0]] + list[1..];
    }
  }

  function FirstOf(list: seq<Subscriber?>, s: Subscriber): (i: nat)
    ensures i <= |list| && (forall k :: 0 <= k < i ==> list[k] != s) && (i < |list| ==> list[i] == s)
  {
    if list == [] || list[0] == s then 0 else 1 + FirstOf(list[1..], s)
  }

  /** Subscribers of a list are distinct when each joins once, and one that leaves is gone. */
  lemma WithoutDistinct(list: seq<Subscriber?>, s: Subscriber)
    requires Distinct(list)
    ensures Distinct(Without(list, s))
    ensures forall k :: 0 <= k < |Without(list, s)| ==> Without(list, s)[k] != s
  {
    WithoutIs(list, s, FirstOf(list, s));
  }

  /** Arrays keep their tenant and never lose a written slot, so a slice taken earlier stays one of its tenant's. */
  ghost predicate Grows(owner: map<array<Subscriber?>, nat>, filled: map<array<Subscriber?>, nat>,
                        owner': map<array<Subscriber?>, nat>, filled': map<array<Subscriber?>, nat>)
  {
    forall a :: a in owner ==>
      && a in owner' && owner'[a] == owner[a]
      && (a in filled ==> a in filled' && filled'[a] >= filled[a])
  }
}
