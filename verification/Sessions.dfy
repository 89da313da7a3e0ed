/**
 The sessions a control plane has minted and still honours (internal/control/sessions.go): an allowlist, the order each
 subject's sessions were opened in, and the ceilings on both.
 */
module Sessions {
  import opened Sets
  import opened Wrappers
  import opened Octets
  import opened Token

  datatype Live = Live(subject: string, issuedAt: int, expiresAt: int, binding: Bytes)

  type Lives = map<Bytes, Live>
  type Holders = map<string, seq<Bytes>>

  predicate Distinct(ids: seq<Bytes>) {
    forall i, j :: 0 <= i < j < |ids| ==> ids[i] != ids[j]
  }

  /** The sessions of a subject, oldest first. */
  function HeldBy(holders: Holders, subject: string): seq<Bytes> {
    if subject in holders then holders[subject] else []
  }

  /** A subject's list names, once each, exactly the live sessions that are the subject's. */
  predicate Agrees(live: Lives, holders: Holders, subject: string) {
    && Distinct(HeldBy(holders, subject))
    && (forall i :: 0 <= i < |HeldBy(holders, subject)| ==> HeldBy(holders, subject)[i] in live && live[HeldBy(holders, subject)[i]].subject == subject)
    && forall id :: id in live && live[id].subject == subject ==> id in HeldBy(holders, subject)
  }

  ghost predicate Consistent(live: Lives, holders: Holders) {
    && (forall subject :: subject in holders ==> holders[subject] != [])
    && forall subject :: Agrees(live, holders, subject)
  }

  /** The identifiers of a list that are still live, in their order. */
  function Only(ids: seq<Bytes>, kept: set<Bytes>): seq<Bytes> {
    if ids == [] then []
    else Only(ids[..|ids| - 1], kept) + if ids[|ids| - 1] in kept then [ids[|ids| - 1]] else []
  }

  function Without(live: Lives, id: Bytes): Lives {
    map other | other in live && other != id :: live[other]
  }

  /** Who is still live at an instant. */
  function Unexpired(live: Lives, now: int): Lives {
    map id | id in live && now < live[id].expiresAt :: live[id]
  }

  lemma {:induction false} OnlyIn(ids: seq<Bytes>, kept: set<Bytes>)
    ensures forall id :: id in Only(ids, kept) <==> id in ids && id in kept
    ensures Distinct(ids) ==> Distinct(Only(ids, kept))
    ensures |Only(ids, kept)| <= |ids|
    decreases |ids|
  {
    if ids != [] {
      var n := |ids| - 1;
      OnlyIn(ids[..n], kept);
      assert ids == ids[..n] + [ids[n]];
      assert Distinct(ids) ==> Distinct(ids[..n]) && ids[n] !in ids[..n];
    }
  }

  lemma {:induction false} OnlyAll(ids: seq<Bytes>, kept: set<Bytes>)
    requires forall i :: 0 <= i < |ids| ==> ids[i] in kept
    ensures Only(ids, kept) == ids
    decreases |ids|
  {
    if ids != [] {
      var n := |ids| - 1;
      OnlyAll(ids[..n], kept);
      assert ids == ids[..n] + [ids[n]];
    }
  }

  lemma {:induction false} OnlyTwice(ids: seq<Bytes>, kept: set<Bytes>, fewer: set<Bytes>)
    requires fewer <= kept
    ensures Only(Only(ids, kept), fewer) == Only(ids, fewer)
    decreases |ids|
  {
    if ids != [] {
      var n := |ids| - 1;
      OnlyTwice(ids[..n], kept, fewer);
      var before := Only(ids[..n], kept);
      if ids[n] in kept {
        assert (before + [ids[n]])[..|before|] == before;
      } else {
        assert before + [] == before;
      }
    }
  }

  /** A list with one identifier taken out of it. */
  function Dropped(ids: seq<Bytes>, id: Bytes): seq<Bytes> {
    if ids == [] then []
    else Dropped(ids[..|ids| - 1], id) + if ids[|ids| - 1] != id then [ids[|ids| - 1]] else []
  }

  lemma {:induction false} DroppedIsOnly(ids: seq<Bytes>, id: Bytes, live: Lives)
    requires forall i :: 0 <= i < |ids| ==> ids[i] in live
    ensures Dropped(ids, id) == Only(ids, Without(live, id).Keys)
    decreases |ids|
  {
    if ids != [] {
      DroppedIsOnly(ids[..|ids| - 1], id, live);
    }
  }

  function WithoutAll(live: Lives, ids: seq<Bytes>): Lives {
    map id | id in live && id !in ids :: live[id]
  }

  datatype Refusal = NotIssued(error: Error) | Full

  datatype Spent = Refused(error: Error) | Revoked | Honoured(session: Session)

  class Store {
    const perSubject: nat
    const capacity: nat
    const issuer: Issuer
    var live: Lives
    var holders: Holders

    ghost predicate Valid()
      reads this
    {
      && 0 < perSubject <= capacity
      && Consistent(live, holders) && |live| <= capacity
      && forall subject :: |HeldBy(holders, subject)| <= perSubject
    }

    constructor (issuer: Issuer, perSubject: nat, capacity: nat)
      requires 0 < perSubject <= capacity
      ensures Valid() && live == map[] && holders == map[]
      ensures this.issuer == issuer && this.perSubject == perSubject && this.capacity == capacity
    {
      this.issuer, this.perSubject, this.capacity := issuer, perSubject, capacity;
      live, holders := map[], map[];
    }

    method RevokeLocked(id: Bytes) returns (ended: nat)
      requires Consistent(live, holders)
      modifies this`live, this`holders
      ensures Consistent(live, holders)
      ensures live == Without(old(live), id) && ended == (if id in old(live) then 1 else 0) && |live| == |old(live)| - ended
      ensures forall subject :: HeldBy(holders, subject) == Only(HeldBy(old(holders), subject), live.Keys)
    {
      if id !in live {
        NothingRevoked(live, holders, id);
        return 0;
      }
      var subject := live[id].subject;
      ghost var before, lists := live, holders;
      assert Agrees(live, holders, subject);
      DroppedIsOnly(HeldBy(holders, subject), id, live);
      assert Without(live, id).Keys == live.Keys - {id};
      live := Without(live, id);
      var remaining := Dropped(HeldBy(holders, subject), id);
      if remaining == [] {
        holders := holders - {subject};
      } else {
        holders := holders[subject := remaining];
      }
      RevokedOne(before, lists, id, live, holders);
      return 1;
    }

    method Revoke(id: Bytes) returns (ended: nat)
      requires Valid()
      modifies this`live, this`holders
      ensures Valid()
      ensures live == Without(old(live), id) && ended == if id in old(live) then 1 else 0
    {
      ghost var before, lists := live, holders;
      ended := RevokeLocked(id);
      NoneAdded(before, live);
      ListsShrink(lists, holders, live.Keys);
    }

    /** Ends every session of a subject and no other. */
    method RevokeSubject(subject: string) returns (ended: nat)
      requires Valid()
      modifies this`live, this`holders
      ensures Valid()
      ensures live == WithoutAll(old(live), HeldBy(old(holders), subject))
      ensures forall id :: id in live <==> id in old(live) && old(live)[id].subject != subject
      ensures ended == |HeldBy(old(holders), subject)|
    {
      ghost var before, lists := live, holders;
      var ids := HeldBy(holders, subject);
      assert Agrees(live, holders, subject);
      ended := 0;
      for i := 0 to |ids|
        invariant Consistent(live, holders)
        invariant live == WithoutAll(before, ids[..i]) && ended == i
        invariant forall other :: |HeldBy(holders, other)| <= perSubject
      {
        assert ids[..i + 1] == ids[..i] + [ids[i]];
        assert ids[i] in live;
        ghost var held := holders;
        var one := RevokeLocked(ids[i]);
        ListsShrink(held, holders, live.Keys);
        ended := ended + one;
      }
      assert ids[..|ids|] == ids;
      NoneAdded(before, live);
    }

    method SweepLocked(now: int) returns (ended: nat)
      requires Consistent(live, holders)
      modifies this`live, this`holders
      ensures Consistent(live, holders)
      ensures live == Unexpired(old(live), now) && ended == |old(live)| - |live|
      ensures forall subject :: HeldBy(holders, subject) == Only(HeldBy(old(holders), subject), live.Keys)
    {
      ghost var before, lists := live, holders;
      var ids := live.Keys;
      ended := 0;
      NothingSwept(live, holders);
      while ids != {}
        invariant Consistent(live, holders)
        invariant ids <= before.Keys && live == SweptSo(before, ids, now) && ended == |before| - |live|
        invariant forall subject :: HeldBy(holders, subject) == Only(HeldBy(lists, subject), live.Keys)
        decreases |ids|
      {
        var id :| id in ids;
        ids := ids - {id};
        if id in live && now >= live[id].expiresAt {
          ghost var held, more := holders, live.Keys;
          var one := RevokeLocked(id);
          ended := ended + one;
          ListsTwice(lists, held, holders, more, live.Keys);
        }
      }
    }

    method Sweep(now: int) returns (ended: nat)
      requires Valid()
      modifies this`live, this`holders
      ensures Valid() && live == Unexpired(old(live), now) && ended == |old(live)| - |live|
      ensures forall subject :: HeldBy(holders, subject) == Only(HeldBy(old(holders), subject), live.Keys)
    {
      ghost var before, lists := live, holders;
      ended := SweepLocked(now);
      NoneAdded(before, live);
      ListsShrink(lists, holders, live.Keys);
    }

    /** Ends the oldest of a subject's sessions until it holds fewer than it may, leaving its list to the caller. */
    method EvictLocked(subject: string) returns (held: seq<Bytes>)
      requires Valid()
      modifies this`live
      ensures var own := HeldBy(holders, subject);
        var evicted := Evicted(own, perSubject);
        held == own[|evicted|..] && live == WithoutAll(old(live), evicted) && |live| == |old(live)| - |evicted|
    {
      ghost var swept, own := live, HeldBy(holders, subject);
      assert Agrees(live, holders, subject);
      held := HeldBy(holders, subject);
      ghost var k := 0;
      assert WithoutAll(swept, own[..0]) == swept;
      while |held| >= perSubject
        invariant k <= |own| && held == own[k..] && live == WithoutAll(swept, own[..k])
        invariant k <= |Evicted(own, perSubject)| && |live| == |swept| - k
        decreases |held|
      {
        EvictsOne(swept, own, k);
        live := Without(live, held[0]);
        held := held[1..];
        k := k + 1;
      }
    }

    method AdmitLocked(subject: string, id: Bytes, entry: Live) returns (admitted: bool)
      requires Valid() && id !in live && entry.subject == subject
      modifies this`live, this`holders
      ensures Valid()
      ensures admitted <==> |HeldBy(old(holders), subject)| >= perSubject || |old(live)| < capacity
      ensures !admitted ==> live == old(live) && holders == old(holders)
      ensures admitted ==>
        var own := HeldBy(old(holders), subject);
        var evicted := Evicted(own, perSubject);
        && live == WithoutAll(old(live), evicted)[id := entry]
        && holders == old(holders)[subject := own[|evicted|..] + [id]]
    {
      ghost var swept, own := live, HeldBy(holders, subject);
      var held := EvictLocked(subject);
      if |live| >= capacity {
        assert Evicted(own, perSubject) == [];
        assert live == swept;
        return false;
      }
      ghost var k := |Evicted(own, perSubject)|;
      assert Evicted(own, perSubject) == own[..k];
      AddsOne(swept, holders, subject, k, id, entry);
      assert id !in live;
      CountsOne(live, id, entry);
      live := live[id := entry];
      ghost var lists := holders;
      holders := holders[subject := held + [id]];
      assert |own| <= perSubject && HeldBy(holders, subject) == held + [id];
      assert forall other :: other != subject ==> HeldBy(holders, other) == HeldBy(lists, other);
      return true;
    }

    /**
     A session is opened in place of the subject's oldest where the subject holds as many as it may.  An open refused for
     capacity ended nobody's session but those that had expired.
     */
    method Open(subject: string, binding: Bytes, now: int, asked: int, id: Bytes) returns (r: Result<(Session, string), Refusal>)
      requires Valid() && id !in live
      modifies this`live, this`holders
      ensures Valid()
      ensures Issue(issuer, subject, binding, now, asked, id).Err? ==>
        r == Err(NotIssued(Issue(issuer, subject, binding, now, asked, id).error)) && live == old(live) && holders == old(holders)
      ensures Issue(issuer, subject, binding, now, asked, id).Ok? ==>
        var swept := Unexpired(old(live), now);
        var own := Only(HeldBy(old(holders), subject), swept.Keys);
        var evicted := Evicted(own, perSubject);
        && (r == Err(Full) <==> |own| < perSubject && |swept| == capacity)
        && (r.Err? ==> r == Err(Full) && live == swept)
        && (r.Ok? ==>
              && r.value == Issue(issuer, subject, binding, now, asked, id).value
              && live == WithoutAll(swept, evicted)[id := LiveOf(r.value.0)]
              && HeldBy(holders, subject) == own[|evicted|..] + [id])
    {
      var issued := Issue(issuer, subject, binding, now, asked, id);
      if issued.Err? {
        return Err(NotIssued(issued.error));
      }
      var _ := Sweep(now);
      var admitted := AdmitLocked(subject, id, LiveOf(issued.value.0));
      if !admitted {
        return Err(Full);
      }
      return Ok(issued.value);
    }

    /** A token opened here is honoured exactly while its session is live and unexpired and it is presented with its certificate. */
    method Verify(token: string, presented: Bytes, now: int) returns (r: Spent)
      requires Valid() && Faithful(issuer)
      ensures r.Honoured? ==> r.session.id in live && live[r.session.id].subject == r.session.subject
      ensures r.Honoured? ==> Verified(issuer, token, presented, now) == Ok(r.session)
      ensures forall session :: Storable(session) && token == Encode(issuer, session) ==>
        (r == Honoured(session) <==> session.id in live && live[session.id].subject == session.subject && now < session.expiresAt && presented == session.binding)
        && (r.Honoured? ==> r == Honoured(session))
    {
      forall session | Storable(session) && token == Encode(issuer, session)
        ensures Verified(issuer, token, presented, now)
             == if now >= session.expiresAt then Err(Expired) else if presented != session.binding then Err(WrongCertificate) else Ok(session)
      {
        TokenVerifies(issuer, session, presented, now);
      }
      var verified := Verified(issuer, token, presented, now);
      if verified.Err? {
        return Refused(verified.error);
      }
      var session := verified.value;
      if session.id !in live || live[session.id].subject != session.subject {
        return Revoked;
      }
      return Honoured(session);
    }
  }

  function LiveOf(session: Session): Live {
    Live(session.subject, session.issuedAt, session.expiresAt, session.binding)
  }

  /** What is live while some identifiers are still to be looked at. */
  function SweptSo(live: Lives, ids: set<Bytes>, now: int): Lives {
    map id | id in live && (id in ids || now < live[id].expiresAt) :: live[id]
  }

  lemma NothingSwept(live: Lives, holders: Holders)
    requires Consistent(live, holders)
    ensures forall subject :: HeldBy(holders, subject) == Only(HeldBy(holders, subject), live.Keys)
  {
    forall subject
      ensures HeldBy(holders, subject) == Only(HeldBy(holders, subject), live.Keys)
    {
      assert Agrees(live, holders, subject);
      OnlyAll(HeldBy(holders, subject), live.Keys);
    }
  }

  lemma ListsTwice(first: Holders, second: Holders, third: Holders, kept: set<Bytes>, fewer: set<Bytes>)
    requires fewer <= kept
    requires forall subject :: HeldBy(second, subject) == Only(HeldBy(first, subject), kept)
    requires forall subject :: HeldBy(third, subject) == Only(HeldBy(second, subject), fewer)
    ensures forall subject :: HeldBy(third, subject) == Only(HeldBy(first, subject), fewer)
  {
    forall subject
      ensures HeldBy(third, subject) == Only(HeldBy(first, subject), fewer)
    {
      OnlyTwice(HeldBy(first, subject), kept, fewer);
    }
  }

  lemma ListsShrink(before: Holders, after: Holders, kept: set<Bytes>)
    requires forall subject :: HeldBy(after, subject) == Only(HeldBy(before, subject), kept)
    ensures forall subject :: |HeldBy(after, subject)| <= |HeldBy(before, subject)|
  {
    forall subject
      ensures |HeldBy(after, subject)| <= |HeldBy(before, subject)|
    {
      OnlyIn(HeldBy(before, subject), kept);
    }
  }

  lemma NoneAdded(before: Lives, after: Lives)
    requires forall id :: id in after ==> id in before
    ensures |after| <= |before|
  {
    assert after.Keys <= before.Keys;
    NoMore(after.Keys, before.Keys);
  }

  /** The sessions a subject loses to open another. */
  function Evicted(own: seq<Bytes>, perSubject: nat): seq<Bytes> {
    if |own| < perSubject || own == [] then [] else own[..1]
  }

  lemma CountsOne(live: Lives, id: Bytes, entry: Live)
    requires id !in live
    ensures |live[id := entry]| == |live| + 1
  {
    assert live[id := entry].Keys == live.Keys + {id};
  }

  lemma EvictsOne(live: Lives, own: seq<Bytes>, k: nat)
    requires k < |own| && Distinct(own) && forall i :: 0 <= i < |own| ==> own[i] in live
    ensures Without(WithoutAll(live, own[..k]), own[k]) == WithoutAll(live, own[..k + 1])
    ensures |Without(WithoutAll(live, own[..k]), own[k])| == |WithoutAll(live, own[..k])| - 1
  {
    var before := WithoutAll(live, own[..k]);
    assert own[..k + 1] == own[..k] + [own[k]];
    assert own[k] !in own[..k] && own[k] in before;
    assert Without(before, own[k]).Keys == before.Keys - {own[k]};
  }

  /** A fresh session put at the end of its subject's list, in place of the first of it, keeps every list of what is live. */
  lemma AddsOne(swept: Lives, holders: Holders, subject: string, k: nat, id: Bytes, entry: Live)
    requires Consistent(swept, holders) && k <= |HeldBy(holders, subject)| && id !in swept && entry.subject == subject
    ensures Consistent(WithoutAll(swept, HeldBy(holders, subject)[..k])[id := entry], holders[subject := HeldBy(holders, subject)[k..] + [id]])
  {
    var own := HeldBy(holders, subject);
    var live, lists := WithoutAll(swept, own[..k])[id := entry], holders[subject := own[k..] + [id]];
    forall other
      ensures Agrees(live, lists, other)
    {
      assert Agrees(swept, holders, other) && Agrees(swept, holders, subject);
      if other == subject {
        OwnAgrees(swept, holders, subject, k, id, entry);
      } else {
        assert forall i :: 0 <= i < |HeldBy(holders, other)| ==> HeldBy(holders, other)[i] !in own[..k];
      }
    }
  }

  lemma TailIsApart(own: seq<Bytes>, k: nat)
    requires Distinct(own) && k <= |own|
    ensures Distinct(own[k..]) && forall id :: id in own <==> id in own[..k] || id in own[k..]
    ensures forall id :: id in own[k..] ==> id !in own[..k]
  {
    assert own == own[..k] + own[k..];
    forall i | 0 <= i < |own| - k
      ensures own[k..][i] == own[k + i] && own[k + i] !in own[..k]
    {
    }
  }

  lemma OwnAgrees(swept: Lives, holders: Holders, subject: string, k: nat, id: Bytes, entry: Live)
    requires Agrees(swept, holders, subject) && k <= |HeldBy(holders, subject)| && id !in swept && entry.subject == subject
    ensures Agrees(WithoutAll(swept, HeldBy(holders, subject)[..k])[id := entry], holders[subject := HeldBy(holders, subject)[k..] + [id]], subject)
  {
    var own := HeldBy(holders, subject);
    var live, ids := WithoutAll(swept, own[..k])[id := entry], own[k..] + [id];
    TailIsApart(own, k);
    forall i | 0 <= i < |ids|
      ensures ids[i] in live && live[ids[i]].subject == subject && (i < |own| - k ==> ids[i] != id)
    {
      if i < |own| - k {
        assert own[k..][i] == ids[i] && ids[i] in own[k..] && ids[i] in own;
      }
    }
    forall other | other in live && live[other].subject == subject
      ensures other in ids
    {
      if other != id {
        assert other in own && other !in own[..k];
      }
    }
  }

  lemma NothingRevoked(live: Lives, holders: Holders, id: Bytes)
    requires Consistent(live, holders) && id !in live
    ensures Without(live, id) == live
    ensures forall subject :: HeldBy(holders, subject) == Only(HeldBy(holders, subject), live.Keys)
  {
    forall subject
      ensures HeldBy(holders, subject) == Only(HeldBy(holders, subject), live.Keys)
    {
      assert Agrees(live, holders, subject);
      OnlyAll(HeldBy(holders, subject), live.Keys);
    }
  }

  /** Taking one session out of its subject's list keeps every list of what is live. */
  lemma RevokedOne(live: Lives, holders: Holders, id: Bytes, after: Lives, lists: Holders)
    requires Consistent(live, holders) && id in live && after == Without(live, id)
    requires var subject := live[id].subject;
      var remaining := Only(HeldBy(holders, subject), after.Keys);
      lists == if remaining == [] then holders - {subject} else holders[subject := remaining]
    ensures Consistent(after, lists)
    ensures forall subject :: HeldBy(lists, subject) == Only(HeldBy(holders, subject), after.Keys)
  {
    forall subject
      ensures HeldBy(lists, subject) == Only(HeldBy(holders, subject), after.Keys)
      ensures Agrees(after, lists, subject)
    {
      assert Agrees(live, holders, subject);
      if subject == live[id].subject {
        assert HeldBy(lists, subject) == Only(HeldBy(holders, subject), after.Keys);
        OwnStillAgrees(live, holders, id, lists, subject);
      } else {
        assert HeldBy(lists, subject) == HeldBy(holders, subject);
        OtherStillAgrees(live, holders, id, lists, subject);
      }
    }
  }

  lemma OwnStillAgrees(live: Lives, holders: Holders, id: Bytes, lists: Holders, subject: string)
    requires Agrees(live, holders, subject) && HeldBy(lists, subject) == Only(HeldBy(holders, subject), Without(live, id).Keys)
    ensures Agrees(Without(live, id), lists, subject)
  {
    var after, ids := Without(live, id), HeldBy(holders, subject);
    OnlyIn(ids, after.Keys);
    forall i | 0 <= i < |HeldBy(lists, subject)|
      ensures HeldBy(lists, subject)[i] in after && after[HeldBy(lists, subject)[i]].subject == subject
    {
      assert HeldBy(lists, subject)[i] in ids;
    }
  }

  lemma OtherStillAgrees(live: Lives, holders: Holders, id: Bytes, lists: Holders, subject: string)
    requires Agrees(live, holders, subject) && id in live && live[id].subject != subject && HeldBy(lists, subject) == HeldBy(holders, subject)
    ensures Agrees(Without(live, id), lists, subject)
    ensures HeldBy(lists, subject) == Only(HeldBy(holders, subject), Without(live, id).Keys)
  {
    OnlyAll(HeldBy(holders, subject), Without(live, id).Keys);
  }
}
