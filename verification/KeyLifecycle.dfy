/** What every run of the key lifecycle keeps. */
module KeyLifecycle {
  import opened Prelude
  import opened LocalKeys

  /** The operations of an issuer adapter; generated keys come with the fresh identifier and
      key pair drawn for them. `Create` is what making the adapter does. */
  datatype Op =
    | Create(kid: string, priv: PrivateKey, now: int)
    | Announce(alg: string, kid: string, priv: PrivateKey, now: int)
    | PromoteKey(kid: string, now: int)
    | RetireKey(kid: string, now: int)
    | LoadKeys(ps: seq<Persisted>)

  function Apply(ks: Keys, op: Op): Keys {
    match op
    case Create(kid, priv, now) => ks + [NewKey("RS256", Active, now, kid, priv)]
    case Announce(alg, kid, priv, now) =>
      if Supported(AlgOrDefault(alg)) then ks + [NewKey(alg, Announced, now, kid, priv)] else ks
    case PromoteKey(kid, now) =>
      var i := FindKID(ks, kid);
      if i.Some? then Promoted(ks, i.value, now) else ks
    case RetireKey(kid, now) =>
      var i := FindKID(ks, kid);
      if i.Some? then ks[i.value := Withdrawn(ks[i.value], now)] else ks
    case LoadKeys(ps) => Imported(ks, ps).keys
  }

  function Run(ks: Keys, ops: seq<Op>): Keys {
    if ops == [] then ks else Apply(Run(ks, ops[..|ops| - 1]), ops[|ops| - 1])
  }

  // ---- key IDs stay unique ----------------------------------------------------------------

  ghost predicate UniqueKIDs(ks: Keys) {
    forall i, j :: 0 <= i < j < |ks| ==> ks[i].meta.kid != ks[j].meta.kid
  }

  /** A generated key gets an ID no key has. */
  ghost predicate Fresh(ks: Keys, op: Op) {
    op.Create? || op.Announce? ==> FindKID(ks, op.kid).None?
  }

  ghost predicate FreshRun(ks: Keys, ops: seq<Op>) {
    forall n :: 0 <= n < |ops| ==> Fresh(Run(ks, ops[..n]), ops[n])
  }

  lemma {:induction false} ImportKeepsUnique(ks: Keys, ps: seq<Persisted>)
    requires UniqueKIDs(ks)
    ensures UniqueKIDs(Imported(ks, ps).keys) && ks <= Imported(ks, ps).keys
  {
    if ps != [] {
      ImportKeepsUnique(ks, ps[..|ps| - 1]);
    }
  }

  lemma ApplyKeepsUnique(ks: Keys, op: Op)
    requires UniqueKIDs(ks) && Fresh(ks, op)
    ensures UniqueKIDs(Apply(ks, op))
  {
    if op.LoadKeys? {
      ImportKeepsUnique(ks, op.ps);
    }
  }

  lemma {:induction false} RunKeepsUnique(ks: Keys, ops: seq<Op>)
    requires UniqueKIDs(ks) && FreshRun(ks, ops)
    ensures UniqueKIDs(Run(ks, ops))
  {
    if ops != [] {
      var init := ops[..|ops| - 1];
      assert forall n :: 0 <= n < |init| ==> init[..n] == ops[..n];
      RunKeepsUnique(ks, init);
      ApplyKeepsUnique(Run(ks, init), ops[|ops| - 1]);
    }
  }

  // ---- at most one key signs ----------------------------------------------------------------

  ghost predicate AtMostOneActive(ks: Keys) {
    forall i, j :: 0 <= i < |ks| && 0 <= j < |ks| && ks[i].meta.status == Active && ks[j].meta.status == Active ==> i == j
  }

  ghost predicate OnlyActive(ks: Keys, i: int) {
    0 <= i < |ks| && forall j :: 0 <= j < |ks| ==> (ks[j].meta.status == Active <==> j == i)
  }

  /** However many keys were active, a successful promotion leaves exactly the promoted one. */
  lemma PromoteLeavesOneActive(ks: Keys, kid: string, now: int)
    requires FindKID(ks, kid).Some?
    ensures OnlyActive(Apply(ks, PromoteKey(kid, now)), FindKID(ks, kid).value)
    ensures SigningKey(Apply(ks, PromoteKey(kid, now)), "") == FindKID(ks, kid)
  {
    var i, after := FindKID(ks, kid).value, Apply(ks, PromoteKey(kid, now));
    assert after[i].meta.status == Active;
  }

  /** The operations of a running issuer: those that neither create it nor load keys. */
  predicate Running(op: Op) {
    op.Announce? || op.PromoteKey? || op.RetireKey?
  }

  lemma RunningKeepsOneActive(ks: Keys, op: Op)
    requires AtMostOneActive(ks) && Running(op)
    ensures AtMostOneActive(Apply(ks, op))
  {
    if op.PromoteKey? && FindKID(ks, op.kid).Some? {
      PromoteLeavesOneActive(ks, op.kid, op.now);
    }
  }

  /** From creation on, at most one key is active, whatever is announced, promoted or
      retired. */
  lemma {:induction false} AtMostOneSigns(kid: string, priv: PrivateKey, now: int, ops: seq<Op>)
    requires forall n :: 0 <= n < |ops| ==> Running(ops[n])
    ensures AtMostOneActive(Run(Apply([], Create(kid, priv, now)), ops))
  {
    if ops != [] {
      var init := ops[..|ops| - 1];
      AtMostOneSigns(kid, priv, now, init);
      RunningKeepsOneActive(Run(Apply([], Create(kid, priv, now)), init), ops[|ops| - 1]);
    }
  }

  // ---- what loading adds ----------------------------------------------------------------------

  /** Record `n` names a key that neither the set nor an earlier record has. */
  ghost predicate NewAt(ks: Keys, ps: seq<Persisted>, n: int) {
    && 0 <= n < |ps| && FindKID(ks, ps[n].kid).None?
    && forall m :: 0 <= m < n ==> ps[m].kid != ps[n].kid
  }

  /** Loading stops at record `n`, or before it. */
  ghost predicate StopsAt(ks: Keys, ps: seq<Persisted>, n: int) {
    NewAt(ks, ps, n) && ps[n].pem.Broken?
  }

  /** Record `n` is new, and neither it nor a new one before it fails to decode. */
  ghost predicate LoadsAt(ks: Keys, ps: seq<Persisted>, n: int) {
    NewAt(ks, ps, n) && ps[n].pem.PrivatePEM? && forall m :: 0 <= m < n ==> !StopsAt(ks, ps, m)
  }

  /** The keys of the records that load, in order. */
  ghost function LoadedFrom(ks: Keys, ps: seq<Persisted>): Keys {
    if ps == [] then [] else
      LoadedFrom(ks, ps[..|ps| - 1]) + if LoadsAt(ks, ps, |ps| - 1) then [Restored(ps[|ps| - 1])] else []
  }

  lemma PrefixLoads(ks: Keys, ps: seq<Persisted>, n: int)
    requires ps != [] && n < |ps| - 1
    ensures LoadsAt(ks, ps, n) <==> LoadsAt(ks, ps[..|ps| - 1], n)
    ensures StopsAt(ks, ps, n) <==> StopsAt(ks, ps[..|ps| - 1], n)
  {
    var init := ps[..|ps| - 1];
    assert forall m :: 0 <= m < |init| ==> init[m] == ps[m];
    assert forall m :: m <= n ==> (NewAt(ks, ps, m) <==> NewAt(ks, init, m));
    assert forall m :: m <= n ==> (StopsAt(ks, ps, m) <==> StopsAt(ks, init, m));
  }

  /** A load fails exactly when some new record does not decode. */
  lemma {:induction false} FailsIffStops(ks: Keys, ps: seq<Persisted>)
    ensures Imported(ks, ps).failed <==> exists n :: StopsAt(ks, ps, n)
  {
    if ps != [] {
      var x, init := |ps| - 1, ps[..|ps| - 1];
      FailsIffStops(ks, init);
      if Imported(ks, init).failed {
        var n :| StopsAt(ks, init, n);
        PrefixLoads(ks, ps, n);
      } else {
        NewIffUnknown(ks, ps);
        assert Imported(ks, ps).failed <==> StopsAt(ks, ps, x);
        forall n | StopsAt(ks, ps, n) && n < x
          ensures false
        {
          PrefixLoads(ks, ps, n);
        }
      }
    }
  }

  /** While nothing has failed, a record is new exactly when the keys loaded so far lack it. */
  lemma NewIffUnknown(ks: Keys, ps: seq<Persisted>)
    requires ps != [] && !Imported(ks, ps[..|ps| - 1]).failed
    ensures NewAt(ks, ps, |ps| - 1) <==> FindKID(Imported(ks, ps[..|ps| - 1]).keys, ps[|ps| - 1].kid).None?
  {
    var x, init := |ps| - 1, ps[..|ps| - 1];
    var now, kid := Imported(ks, init).keys, ps[x].kid;
    assert forall m :: 0 <= m < x ==> init[m] == ps[m];
    LoadedIsKnown(ks, init);
    LoadingAppends(ks, init);
    if FindKID(ks, kid).Some? {
      FindMono(ks, now, kid);
    }
    if FindKID(now, kid).Some? {
      KnownIsNamed(ks, init, kid);
    }
  }

  lemma {:induction false} KnownIsNamed(ks: Keys, ps: seq<Persisted>, kid: string)
    requires FindKID(Imported(ks, ps).keys, kid).Some?
    ensures FindKID(ks, kid).Some? || exists m :: 0 <= m < |ps| && ps[m].kid == kid
  {
    if ps != [] && ps[|ps| - 1].kid != kid {
      var init := ps[..|ps| - 1];
      KnownIsNamed(ks, init, kid);
      assert forall m :: 0 <= m < |init| ==> init[m] == ps[m];
    }
  }

  lemma LastLoadsIff(ks: Keys, ps: seq<Persisted>)
    requires ps != []
    ensures var before := Imported(ks, ps[..|ps| - 1]);
            LoadsAt(ks, ps, |ps| - 1) <==>
              !before.failed && FindKID(before.keys, ps[|ps| - 1].kid).None? && ps[|ps| - 1].pem.PrivatePEM?
  {
    var x, init := |ps| - 1, ps[..|ps| - 1];
    FailsIffStops(ks, init);
    if Imported(ks, init).failed {
      var n :| StopsAt(ks, init, n);
      PrefixLoads(ks, ps, n);
    } else {
      NewIffUnknown(ks, ps);
      forall n | 0 <= n < x
        ensures !StopsAt(ks, ps, n)
      {
        PrefixLoads(ks, ps, n);
      }
    }
  }

  /** A load appends exactly the keys of the records that load, in order. */
  lemma {:induction false} LoadAddsExactly(ks: Keys, ps: seq<Persisted>)
    ensures Imported(ks, ps).keys == ks + LoadedFrom(ks, ps)
  {
    if ps != [] {
      LoadAddsExactly(ks, ps[..|ps| - 1]);
      LastLoadsIff(ks, ps);
    }
  }

  ghost predicate HasStatus(ks: Keys, s: Status) {
    exists j :: 0 <= j < |ks| && ks[j].meta.status == s
  }

  ghost predicate LoadsStatus(ks: Keys, ps: seq<Persisted>, s: Status) {
    exists n :: LoadsAt(ks, ps, n) && ps[n].status == s
  }

  lemma HasStatusAppend(ks: Keys, k: Managed, s: Status)
    ensures HasStatus(ks + [k], s) <==> HasStatus(ks, s) || k.meta.status == s
  {
    if j :| 0 <= j < |ks| && ks[j].meta.status == s {
      assert (ks + [k])[j].meta.status == s;
    }
    assert (ks + [k])[|ks|] == k;
  }

  lemma LoadsStatusGrows(ks: Keys, ps: seq<Persisted>, s: Status)
    requires ps != [] && LoadsStatus(ks, ps[..|ps| - 1], s)
    ensures LoadsStatus(ks, ps, s)
  {
    var init := ps[..|ps| - 1];
    var n :| LoadsAt(ks, init, n) && init[n].status == s;
    PrefixLoads(ks, ps, n);
    assert LoadsAt(ks, ps, n) && ps[n].status == s;
  }

  lemma LoadsStatusNext(ks: Keys, ps: seq<Persisted>, s: Status)
    requires ps != []
    ensures LoadsStatus(ks, ps, s) <==>
              LoadsStatus(ks, ps[..|ps| - 1], s) || (LoadsAt(ks, ps, |ps| - 1) && ps[|ps| - 1].status == s)
  {
    var x, init := |ps| - 1, ps[..|ps| - 1];
    if LoadsStatus(ks, init, s) {
      LoadsStatusGrows(ks, ps, s);
    }
    if n :| LoadsAt(ks, ps, n) && ps[n].status == s && n < x {
      PrefixLoads(ks, ps, n);
      assert LoadsAt(ks, init, n) && init[n].status == s;
    }
  }

  lemma {:induction false} LoadedStatus(ks: Keys, ps: seq<Persisted>, s: Status)
    ensures HasStatus(LoadedFrom(ks, ps), s) <==> LoadsStatus(ks, ps, s)
  {
    if ps != [] {
      var init := ps[..|ps| - 1];
      LoadedStatus(ks, init, s);
      LoadsStatusNext(ks, ps, s);
      if LoadsAt(ks, ps, |ps| - 1) {
        HasStatusAppend(LoadedFrom(ks, init), Restored(ps[|ps| - 1]), s);
      } else {
        assert LoadedFrom(ks, ps) == LoadedFrom(ks, init);
      }
    }
  }

  /** Loading can leave a second active key beside the one there is, and does so exactly
      when a record saved as active is new and is reached: neither it nor a new record
      before it fails to decode. */
  lemma {:induction false} LoadingKeepsOneIff(ks: Keys, ps: seq<Persisted>, a: int)
    requires OnlyActive(ks, a)
    ensures AtMostOneActive(Imported(ks, ps).keys) <==> forall n :: LoadsAt(ks, ps, n) ==> ps[n].status != Active
  {
    LoadAddsExactly(ks, ps);
    LoadedStatus(ks, ps, Active);
    SecondActiveIff(ks, LoadedFrom(ks, ps), a);
  }

  lemma SecondActiveIff(ks: Keys, added: Keys, a: int)
    requires OnlyActive(ks, a)
    ensures AtMostOneActive(ks + added) <==> !HasStatus(added, Active)
  {
    var after := ks + added;
    if j :| 0 <= j < |added| && added[j].meta.status == Active {
      assert after[|ks| + j].meta.status == Active && after[a].meta.status == Active;
    }
  }

  /** A restarted issuer makes its fresh active key before it loads what was saved. Whatever
      is loaded, the fresh key signs by default, although it was never saved. */
  lemma {:induction false} RestartSignsWithFreshKey(kid: string, priv: PrivateKey, now: int, ps: seq<Persisted>)
    requires forall n :: 0 <= n < |ps| ==> ps[n].kid != kid
    ensures var after := Imported(Apply([], Create(kid, priv, now)), ps).keys;
            && SigningKey(after, "") == Some(0) && after[0].meta.kid == kid
            && forall n :: 0 <= n < |ps| ==> Saved(after[0]) != ps[n]
  {
    var fresh_ := Apply([], Create(kid, priv, now));
    LoadingAppends(fresh_, ps);
    var after := Imported(fresh_, ps).keys;
    assert after[0] == fresh_[0] && after[0].meta.status == Active;
    assert after[..0] == [];
    FirstStatusHolds(after, Active, 0);
  }

  /** One saved active key, and a restart: two active keys. */
  lemma RestartLeavesTwoActive(kid: string, priv: PrivateKey, now: int, p: Persisted)
    requires p.kid != kid && p.status == Active && p.pem.PrivatePEM?
    ensures var after := Imported(Apply([], Create(kid, priv, now)), [p]).keys;
            && |after| == 2 && after[0].meta.status == Active && after[1] == Restored(p)
            && !AtMostOneActive(after)
  {
    var fresh_ := Apply([], Create(kid, priv, now));
    assert [p][..0] == [];
    assert Imported(fresh_, []) == Load(fresh_, false);
    assert FindKID(fresh_, p.kid).None?;
    var after := Imported(fresh_, [p]).keys;
    assert after == fresh_ + [Restored(p)];
    assert after[1].meta.status == Active;
  }

  lemma {:induction false} LoadingAppends(ks: Keys, ps: seq<Persisted>)
    ensures ks <= Imported(ks, ps).keys
  {
    if ps != [] {
      LoadingAppends(ks, ps[..|ps| - 1]);
    }
  }

  // ---- published while it may still be needed -----------------------------------------------

  ghost predicate InJWKS(ks: Keys, w: WebKey) {
    w in Published(ks)
  }

  lemma {:induction false} PublishedIff(ks: Keys, w: WebKey)
    ensures InJWKS(ks, w) <==> exists i :: 0 <= i < |ks| && ks[i].meta.status != Retired && WebKeyOf(ks[i]) == w
  {
    if ks != [] {
      PublishedIff(ks[..|ks| - 1], w);
      assert forall i :: 0 <= i < |ks| - 1 ==> ks[..|ks| - 1][i] == ks[i];
    }
  }

  lemma PublishedAt(ks: Keys, i: nat)
    requires UniqueKIDs(ks) && i < |ks|
    ensures InJWKS(ks, WebKeyOf(ks[i])) <==> ks[i].meta.status != Retired
  {
    PublishedIff(ks, WebKeyOf(ks[i]));
  }

  /** Key `i` is what it was: same material, ID and algorithm. */
  lemma ApplyKeepsIdentity(ks: Keys, op: Op, i: nat)
    requires i < |ks|
    ensures i < |Apply(ks, op)| && WebKeyOf(Apply(ks, op)[i]) == WebKeyOf(ks[i])
  {
    if op.LoadKeys? {
      LoadingAppends(ks, op.ps);
    }
  }

  /** Whether a key is retired after `op`, told from the operation alone. */
  predicate Withdraws(op: Op, kid: string, before: bool) {
    if op.RetireKey? && op.kid == kid then true
    else if op.PromoteKey? && op.kid == kid then false
    else before
  }

  predicate WithdrawnBy(ops: seq<Op>, kid: string, before: bool) {
    if ops == [] then before else Withdraws(ops[|ops| - 1], kid, WithdrawnBy(ops[..|ops| - 1], kid, before))
  }

  lemma ApplyWithdraws(ks: Keys, op: Op, i: nat)
    requires UniqueKIDs(ks) && i < |ks|
    ensures i < |Apply(ks, op)|
    ensures Apply(ks, op)[i].meta.status == Retired <==> Withdraws(op, ks[i].meta.kid, ks[i].meta.status == Retired)
  {
    ApplyKeepsIdentity(ks, op, i);
    if op.LoadKeys? {
      LoadingAppends(ks, op.ps);
    } else if (op.PromoteKey? || op.RetireKey?) && FindKID(ks, op.kid).Some? {
      assert FindKID(ks, op.kid).value == i <==> op.kid == ks[i].meta.kid;
    }
  }

  lemma {:induction false} RunKeepsKey(ks: Keys, ops: seq<Op>, i: nat)
    requires UniqueKIDs(ks) && FreshRun(ks, ops) && i < |ks|
    ensures i < |Run(ks, ops)| && WebKeyOf(Run(ks, ops)[i]) == WebKeyOf(ks[i])
    ensures Run(ks, ops)[i].meta.status == Retired <==>
              WithdrawnBy(ops, ks[i].meta.kid, ks[i].meta.status == Retired)
  {
    if ops != [] {
      var init := ops[..|ops| - 1];
      assert forall n :: 0 <= n < |init| ==> init[..n] == ops[..n];
      RunKeepsKey(ks, init, i);
      RunKeepsUnique(ks, init);
      ApplyKeepsIdentity(Run(ks, init), ops[|ops| - 1], i);
      ApplyWithdraws(Run(ks, init), ops[|ops| - 1], i);
    }
  }

  /** A key is in the published set after a run exactly when the last promotion or
      retirement naming it, if any, is not a retirement. */
  lemma PublishedUnlessWithdrawn(ks: Keys, ops: seq<Op>, i: nat)
    requires UniqueKIDs(ks) && FreshRun(ks, ops) && i < |ks|
    ensures InJWKS(Run(ks, ops), WebKeyOf(ks[i])) <==>
              !WithdrawnBy(ops, ks[i].meta.kid, ks[i].meta.status == Retired)
  {
    RunKeepsKey(ks, ops, i);
    RunKeepsUnique(ks, ops);
    PublishedAt(Run(ks, ops), i);
  }

  lemma {:induction false} NotWithdrawn(ops: seq<Op>, kid: string)
    requires forall n :: 0 <= n < |ops| && ops[n].RetireKey? ==> ops[n].kid != kid
    ensures !WithdrawnBy(ops, kid, false)
  {
    if ops != [] {
      NotWithdrawn(ops[..|ops| - 1], kid);
    }
  }

  /** A token minted with the default key verifies against every later published set until
      its key is retired. */
  lemma MintedKeyStaysPublished(ks: Keys, ops: seq<Op>)
    requires UniqueKIDs(ks) && FreshRun(ks, ops) && SigningKey(ks, "").Some?
    requires var kid := ks[SigningKey(ks, "").value].meta.kid;
             forall n :: 0 <= n < |ops| && ops[n].RetireKey? ==> ops[n].kid != kid
    ensures InJWKS(Run(ks, ops), WebKeyOf(ks[SigningKey(ks, "").value]))
  {
    var i := SigningKey(ks, "").value;
    NotWithdrawn(ops, ks[i].meta.kid);
    PublishedUnlessWithdrawn(ks, ops, i);
  }

  // ---- saving and loading -------------------------------------------------------------------

  /** What every key set made by this code is like. */
  ghost predicate WellFormed(ks: Keys) {
    forall i :: 0 <= i < |ks| ==> ks[i].meta.use_ == "sig" && ks[i].meta.pem == PublicPEM(ks[i].priv)
  }

  lemma {:induction false} ImportKeepsForm(ks: Keys, ps: seq<Persisted>)
    requires WellFormed(ks)
    ensures WellFormed(Imported(ks, ps).keys)
  {
    if ps != [] {
      ImportKeepsForm(ks, ps[..|ps| - 1]);
    }
  }

  lemma {:induction false} RunKeepsForm(ks: Keys, ops: seq<Op>)
    requires WellFormed(ks)
    ensures WellFormed(Run(ks, ops))
  {
    if ops != [] {
      RunKeepsForm(ks, ops[..|ops| - 1]);
      if ops[|ops| - 1].LoadKeys? {
        ImportKeepsForm(Run(ks, ops[..|ops| - 1]), ops[|ops| - 1].ps);
      }
    }
  }

  lemma {:induction false} KnownIsSkipped(ks: Keys, ps: seq<Persisted>)
    requires forall i :: 0 <= i < |ps| ==> FindKID(ks, ps[i].kid).Some?
    ensures Imported(ks, ps) == Load(ks, false)
  {
    if ps != [] {
      KnownIsSkipped(ks, ps[..|ps| - 1]);
    }
  }

  lemma FindMono(ks: Keys, more: Keys, kid: string)
    requires ks <= more && FindKID(ks, kid).Some?
    ensures FindKID(more, kid).Some?
  {
    assert more[FindKID(ks, kid).value].meta.kid == kid;
  }

  /** After a load that went through, every loaded key is there. */
  lemma {:induction false} LoadedIsKnown(ks: Keys, ps: seq<Persisted>)
    requires !Imported(ks, ps).failed
    ensures forall i :: 0 <= i < |ps| ==> FindKID(Imported(ks, ps).keys, ps[i].kid).Some?
  {
    if ps != [] {
      var init := ps[..|ps| - 1];
      LoadedIsKnown(ks, init);
      var before, after := Imported(ks, init).keys, Imported(ks, ps).keys;
      forall i | 0 <= i < |ps|
        ensures FindKID(after, ps[i].kid).Some?
      {
        if i < |init| {
          assert init[i] == ps[i];
          FindMono(before, after, ps[i].kid);
        } else {
          assert FindKID(before, ps[i].kid).Some? || after[|before|].meta.kid == ps[i].kid;
          if FindKID(before, ps[i].kid).Some? {
            FindMono(before, after, ps[i].kid);
          }
        }
      }
    }
  }

  /** Where a failing load stops: at the first key that is new and does not decode. */
  lemma {:induction false} FailurePoint(ks: Keys, ps: seq<Persisted>) returns (n: nat)
    requires Imported(ks, ps).failed
    ensures n < |ps| && ps[n].pem.Broken? && !Imported(ks, ps[..n]).failed
    ensures Imported(ks, ps) == Load(Imported(ks, ps[..n]).keys, true)
    ensures FindKID(Imported(ks, ps[..n]).keys, ps[n].kid).None?
  {
    var init := ps[..|ps| - 1];
    if Imported(ks, init).failed {
      n := FailurePoint(ks, init);
      assert init[..n] == ps[..n];
    } else {
      n := |init|;
    }
  }

  /** Importing the same keys again changes nothing and reports the same. */
  lemma ImportIsIdempotent(ks: Keys, ps: seq<Persisted>)
    ensures Imported(Imported(ks, ps).keys, ps) == Imported(ks, ps)
  {
    var l := Imported(ks, ps);
    if !l.failed {
      LoadedIsKnown(ks, ps);
      KnownIsSkipped(l.keys, ps);
    } else {
      var n := FailurePoint(ks, ps);
      LoadedIsKnown(ks, ps[..n]);
      KnownIsSkipped(l.keys, ps[..n]);
      assert ps[..n + 1][..n] == ps[..n];
      assert Imported(l.keys, ps[..n + 1]) == Load(l.keys, true);
      FailureSticks(l.keys, ps, n + 1);
    }
  }

  lemma {:induction false} RestoringUnique(ks: Keys, n: nat)
    requires WellFormed(ks) && UniqueKIDs(ks) && n <= |ks|
    ensures Imported([], Exported(ks)[..n]) == Load(ks[..n], false)
  {
    if n > 0 {
      RestoringUnique(ks, n - 1);
      var ps := Exported(ks)[..n];
      assert ps[..n - 1] == Exported(ks)[..n - 1];
      var init := ks[..n - 1];
      assert forall i :: 0 <= i < |init| ==> init[i].meta.kid != ks[n - 1].meta.kid;
      assert Restored(Saved(ks[n - 1])) == ks[n - 1];
      assert ks[..n - 1] + [ks[n - 1]] == ks[..n];
    }
  }

  /** Loading what was saved into an empty set restores the keys, in order and in full,
      exactly when no two keys have the same ID. */
  lemma ExportRestores(ks: Keys)
    requires WellFormed(ks)
    ensures Imported([], Exported(ks)) == Load(ks, false) <==> UniqueKIDs(ks)
  {
    if UniqueKIDs(ks) {
      RestoringUnique(ks, |ks|);
      assert Exported(ks)[..|ks|] == Exported(ks) && ks[..|ks|] == ks;
    } else {
      ImportKeepsUnique([], Exported(ks));
    }
  }
}
