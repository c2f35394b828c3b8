/** The signing keys of an issuer Keyway controls: their lifecycle, what it publishes, and
    saving and loading them. */
module LocalKeys {
  import opened Prelude

  // ---- data -------------------------------------------------------------------------

  datatype Status = Announced | Active | Retiring | Retired | Other(text: string)

  /** Key material; a PEM is an encoding that can be decoded, or a broken one. */
  datatype PrivateKey = PrivateKey(serial: nat)

  datatype PublicPEM = PublicPEM(of: PrivateKey)

  datatype PrivatePEM = PrivatePEM(of: PrivateKey) | Broken

  datatype Meta = Meta(
    kid: string, alg: string, use_: string, pem: PublicPEM, status: Status,
    firstSeen: int, inUseSince: Option<int>, retiredAt: Option<int>)

  datatype Managed = Managed(priv: PrivateKey, meta: Meta)

  datatype Persisted = Persisted(
    kid: string, alg: string, status: Status, pem: PrivatePEM,
    firstSeen: int, inUseSince: Option<int>, retiredAt: Option<int>)

  datatype WebKey = WebKey(pub: PublicPEM, kid: string, alg: string)

  datatype KeyError = UnsupportedAlg | NoSuchKey | BadPEM

  type Keys = seq<Managed>

  // ---- lookups ------------------------------------------------------------------------

  function FindKID(ks: Keys, kid: string): (r: Option<nat>)
    ensures r.Some? ==> r.value < |ks| && ks[r.value].meta.kid == kid
    ensures r.None? ==> forall i :: 0 <= i < |ks| ==> ks[i].meta.kid != kid
  {
    if ks == [] then None
    else if FindKID(ks[..|ks| - 1], kid).Some? then FindKID(ks[..|ks| - 1], kid)
    else if ks[|ks| - 1].meta.kid == kid then Some(|ks| - 1) else None
  }

  function FindStatus(ks: Keys, s: Status): (r: Option<nat>)
    ensures r.Some? ==> r.value < |ks| && ks[r.value].meta.status == s
    ensures r.None? ==> forall i :: 0 <= i < |ks| ==> ks[i].meta.status != s
  {
    if ks == [] then None
    else if FindStatus(ks[..|ks| - 1], s).Some? then FindStatus(ks[..|ks| - 1], s)
    else if ks[|ks| - 1].meta.status == s then Some(|ks| - 1) else None
  }

  /** The key that signs: the first active one by default, else the named one. */
  function SigningKey(ks: Keys, kid: string): Option<nat> {
    if kid == "" then FindStatus(ks, Active) else FindKID(ks, kid)
  }

  /** Key `i` is the first with this ID. */
  ghost predicate FirstNamed(ks: Keys, kid: string, i: int) {
    0 <= i < |ks| && ks[i].meta.kid == kid && forall j :: 0 <= j < i ==> ks[j].meta.kid != kid
  }

  /** Key `i` is the first in this status. */
  ghost predicate FirstIn(ks: Keys, s: Status, i: int) {
    0 <= i < |ks| && ks[i].meta.status == s && forall j :: 0 <= j < i ==> ks[j].meta.status != s
  }

  lemma {:induction false} FindKIDIsFirst(ks: Keys, kid: string)
    ensures FindKID(ks, kid).Some? ==> FirstNamed(ks, kid, FindKID(ks, kid).value)
  {
    if ks != [] {
      FindKIDIsFirst(ks[..|ks| - 1], kid);
    }
  }

  lemma {:induction false} FindStatusIsFirst(ks: Keys, s: Status)
    ensures FindStatus(ks, s).Some? ==> FirstIn(ks, s, FindStatus(ks, s).value)
  {
    if ks != [] {
      FindStatusIsFirst(ks[..|ks| - 1], s);
    }
  }

  // ---- the lifecycle ----------------------------------------------------------------------

  /** Promoting key `i` at `now`: it becomes active and in use since then, every other active
      key becomes retiring, and nothing else about any key changes. */
  ghost predicate IsPromotion(was: Keys, is_: Keys, i: int, now: int) {
    && |is_| == |was|
    && forall j :: 0 <= j < |was| ==>
         && is_[j].priv == was[j].priv
         && is_[j].meta == was[j].meta.(
              status := if j == i then Active else if was[j].meta.status == Active then Retiring else was[j].meta.status,
              inUseSince := if j == i then Some(now) else was[j].meta.inUseSince)
  }

  /** Retiring key `i` at `now`: it becomes retired, in use as long as it was, and nothing else
      about any key changes. */
  ghost predicate IsRetirement(was: Keys, is_: Keys, i: int, now: int) {
    && |is_| == |was|
    && forall j :: 0 <= j < |was| ==>
         && is_[j].priv == was[j].priv
         && is_[j].meta == was[j].meta.(status := if j == i then Retired else was[j].meta.status,
                                        retiredAt := if j == i then Some(now) else was[j].meta.retiredAt)
  }

  predicate Supported(alg: string) {
    alg in ["RS256", "RS384", "RS512"]
  }

  function AlgOrDefault(alg: string): string {
    if alg == "" then "RS256" else alg
  }

  function NewKey(alg: string, status: Status, now: int, kid: string, priv: PrivateKey): Managed {
    Managed(priv, Meta(kid, AlgOrDefault(alg), "sig", PublicPEM(priv), status, now,
                       if status == Active then Some(now) else None, None))
  }

  function Demoted(k: Managed): Managed {
    if k.meta.status == Active then k.(meta := k.meta.(status := Retiring)) else k
  }

  function Activated(k: Managed, now: int): Managed {
    k.(meta := k.meta.(status := Active, inUseSince := Some(now)))
  }

  function Withdrawn(k: Managed, now: int): Managed {
    k.(meta := k.meta.(status := Retired, retiredAt := Some(now)))
  }

  /** All active keys step back, then key `i` becomes active. */
  function Promoted(ks: Keys, i: nat, now: int): Keys
    requires i < |ks|
  {
    Map(Demoted, ks)[i := Activated(Demoted(ks[i]), now)]
  }

  // ---- publishing, saving and loading -----------------------------------------------------

  function WebKeyOf(k: Managed): WebKey {
    WebKey(PublicPEM(k.priv), k.meta.kid, k.meta.alg)
  }

  function Published(ks: Keys): seq<WebKey> {
    if ks == [] then [] else
      var last := ks[|ks| - 1];
      Published(ks[..|ks| - 1]) + if last.meta.status == Retired then [] else [WebKeyOf(last)]
  }

  function Saved(k: Managed): Persisted {
    Persisted(k.meta.kid, k.meta.alg, k.meta.status, PrivatePEM.PrivatePEM(k.priv),
              k.meta.firstSeen, k.meta.inUseSince, k.meta.retiredAt)
  }

  function Exported(ks: Keys): seq<Persisted> {
    Map(Saved, ks)
  }

  function Restored(p: Persisted): Managed
    requires p.pem.PrivatePEM?
  {
    Managed(p.pem.of, Meta(p.kid, p.alg, "sig", PublicPEM(p.pem.of), p.status, p.firstSeen, p.inUseSince, p.retiredAt))
  }

  /** The keys after loading, and whether it stopped at a key that does not decode. */
  datatype Load = Load(keys: Keys, failed: bool)

  function LoadOne(l: Load, p: Persisted): Load {
    if l.failed || FindKID(l.keys, p.kid).Some? then l
    else if p.pem.Broken? then Load(l.keys, true)
    else Load(l.keys + [Restored(p)], false)
  }

  function Imported(ks: Keys, ps: seq<Persisted>): Load {
    if ps == [] then Load(ks, false) else LoadOne(Imported(ks, ps[..|ps| - 1]), ps[|ps| - 1])
  }

  // ---- the key set ------------------------------------------------------------------------

  /** The key set, with the list of snapshots its change hook was given. */
  class KeySet {
    var keys: Keys
    var hooked: bool
    ghost var sunk: seq<seq<Persisted>>

    constructor ()
      ensures keys == [] && !hooked && sunk == []
    {
      keys, hooked, sunk := [], false, [];
    }

    /** What the sink has received after a change that led to the current keys. */
    ghost function Notified(before: seq<seq<Persisted>>): seq<seq<Persisted>>
      reads this
    {
      if hooked then before + [Exported(keys)] else before
    }

    method SetOnChange()
      modifies this`hooked
      ensures hooked
    {
      hooked := true;
    }

    method Notify()
      modifies this`sunk
      ensures sunk == Notified(old(sunk))
    {
      if hooked {
        var snapshot := Export();
        sunk := sunk + [snapshot];
      }
    }

    method Export() returns (out: seq<Persisted>)
      ensures out == Exported(keys)
    {
      out := [];
      for i := 0 to |keys|
        invariant |out| == i && forall j :: 0 <= j < i ==> out[j] == Saved(keys[j])
      {
        out := out + [Saved(keys[i])];
      }
    }

    method ByKID(kid: string) returns (r: Option<nat>)
      ensures r == FindKID(keys, kid)
    {
      for i := 0 to |keys|
        invariant FindKID(keys[..i], kid).None?
      {
        assert keys[..i + 1][..i] == keys[..i];
        if keys[i].meta.kid == kid {
          FirstKIDHolds(keys, kid, i);
          return Some(i);
        }
      }
      assert keys[..|keys|] == keys;
      return None;
    }

    method ByStatus(s: Status) returns (r: Option<nat>)
      ensures r == FindStatus(keys, s)
    {
      for i := 0 to |keys|
        invariant FindStatus(keys[..i], s).None?
      {
        assert keys[..i + 1][..i] == keys[..i];
        if keys[i].meta.status == s {
          FirstStatusHolds(keys, s, i);
          return Some(i);
        }
      }
      assert keys[..|keys|] == keys;
      return None;
    }

    method ActiveKID() returns (kid: string)
      ensures var i := FindStatus(keys, Active); kid == if i.Some? then keys[i.value].meta.kid else ""
    {
      var i := ByStatus(Active);
      return if i.Some? then keys[i.value].meta.kid else "";
    }

    /** `kid` and `priv` are the fresh identifier and key pair the original draws. */
    method Generate(alg: string, status: Status, now: int, kid: string, priv: PrivateKey)
      returns (r: Result<Meta, KeyError>)
      modifies this`keys, this`sunk
      ensures if Supported(AlgOrDefault(alg)) then
                var k := NewKey(alg, status, now, kid, priv);
                r == Ok(k.meta) && keys == old(keys) + [k] && sunk == Notified(old(sunk))
              else r == Err(UnsupportedAlg) && keys == old(keys) && sunk == old(sunk)
      ensures r.Ok? <==> alg in {"", "RS256", "RS384", "RS512"}
      ensures r.Ok? ==>
                && |keys| == |old(keys)| + 1 && keys[|old(keys)|].priv == priv && r == Ok(keys[|old(keys)|].meta)
                && r.value == Meta(kid, if alg == "" then "RS256" else alg, "sig", PublicPEM(priv), status, now,
                                   if status == Active then Some(now) else None, None)
    {
      if !Supported(AlgOrDefault(alg)) {
        return Err(UnsupportedAlg);
      }
      var k := NewKey(alg, status, now, kid, priv);
      keys := keys + [k];
      Notify();
      return Ok(k.meta);
    }

    method Sign(kid: string) returns (r: Result<WebKey, KeyError>)
      ensures kid != "" ==> (r.Ok? <==> exists i :: 0 <= i < |keys| && keys[i].meta.kid == kid)
      ensures kid != "" ==> forall i :: FirstNamed(keys, kid, i) ==>
                r == Ok(WebKey(PublicPEM(keys[i].priv), kid, keys[i].meta.alg))
      ensures kid == "" ==> (r.Ok? <==> exists i :: 0 <= i < |keys| && keys[i].meta.status == Active)
      ensures kid == "" ==> forall i :: FirstIn(keys, Active, i) ==>
                r == Ok(WebKey(PublicPEM(keys[i].priv), keys[i].meta.kid, keys[i].meta.alg))
      ensures var i := SigningKey(keys, kid);
              r == if i.Some? then Ok(WebKeyOf(keys[i.value])) else Err(NoSuchKey)
    {
      FindKIDIsFirst(keys, kid);
      FindStatusIsFirst(keys, Active);
      var i: Option<nat>;
      if kid == "" {
        i := ByStatus(Active);
      } else {
        i := ByKID(kid);
      }
      if i.None? {
        return Err(NoSuchKey);
      }
      return Ok(WebKeyOf(keys[i.value]));
    }

    method Promote(kid: string, now: int) returns (ok: bool)
      modifies this`keys, this`sunk
      ensures var i := FindKID(old(keys), kid);
              if i.Some? then ok && keys == Promoted(old(keys), i.value, now) && sunk == Notified(old(sunk))
              else !ok && keys == old(keys) && sunk == old(sunk)
      ensures ok <==> exists i :: 0 <= i < |old(keys)| && old(keys)[i].meta.kid == kid
      ensures forall i :: FirstNamed(old(keys), kid, i) ==> IsPromotion(old(keys), keys, i, now)
    {
      var i := ByKID(kid);
      if i.None? {
        return false;
      }
      ghost var before := keys;
      FindKIDIsFirst(before, kid);
      for j := 0 to |keys|
        invariant |keys| == |before| && sunk == old(sunk)
        invariant forall l :: 0 <= l < |keys| ==> keys[l] == if l < j then Demoted(before[l]) else before[l]
      {
        if keys[j].meta.status == Active {
          keys := keys[j := keys[j].(meta := keys[j].meta.(status := Retiring))];
        }
      }
      assert keys == Map(Demoted, before);
      assert keys[i.value] == Demoted(before[i.value]);
      keys := keys[i.value := Activated(keys[i.value], now)];
      Notify();
      return true;
    }

    method Retire(kid: string, now: int) returns (ok: bool)
      modifies this`keys, this`sunk
      ensures var i := FindKID(old(keys), kid);
              if i.Some? then
                && ok && keys == old(keys)[i.value := Withdrawn(old(keys)[i.value], now)]
                && sunk == Notified(old(sunk))
              else !ok && keys == old(keys) && sunk == old(sunk)
      ensures ok <==> exists i :: 0 <= i < |old(keys)| && old(keys)[i].meta.kid == kid
      ensures forall i :: FirstNamed(old(keys), kid, i) ==> IsRetirement(old(keys), keys, i, now)
    {
      FindKIDIsFirst(keys, kid);
      var i := ByKID(kid);
      if i.None? {
        return false;
      }
      keys := keys[i.value := Withdrawn(keys[i.value], now)];
      Notify();
      return true;
    }

    method JWKS() returns (set_: seq<WebKey>)
      ensures set_ == Published(keys)
    {
      set_ := [];
      for i := 0 to |keys|
        invariant set_ == Published(keys[..i])
      {
        assert keys[..i + 1][..i] == keys[..i];
        if keys[i].meta.status != Retired {
          set_ := set_ + [WebKeyOf(keys[i])];
        }
      }
      assert keys[..|keys|] == keys;
    }

    /** Loading is no change to save: the hook is not called. */
    method Import(ps: seq<Persisted>) returns (r: Result<(), KeyError>)
      modifies this`keys
      ensures var l := Imported(old(keys), ps);
              keys == l.keys && r == if l.failed then Err(BadPEM) else Ok(())
    {
      ghost var before := keys;
      for i := 0 to |ps|
        invariant Imported(before, ps[..i]) == Load(keys, false)
      {
        assert ps[..i + 1][..i] == ps[..i];
        var found := ByKID(ps[i].kid);
        if found.Some? {
          continue;
        }
        if ps[i].pem.Broken? {
          FailureSticks(before, ps, i + 1);
          return Err(BadPEM);
        }
        keys := keys + [Restored(ps[i])];
      }
      assert ps[..|ps|] == ps;
      return Ok(());
    }
  }

  lemma {:induction false} FirstKIDHolds(ks: Keys, kid: string, i: nat)
    requires i < |ks| && ks[i].meta.kid == kid && FindKID(ks[..i], kid).None?
    ensures FindKID(ks, kid) == Some(i)
  {
    if i < |ks| - 1 {
      assert ks[..|ks| - 1][..i] == ks[..i];
      FirstKIDHolds(ks[..|ks| - 1], kid, i);
    }
  }

  lemma {:induction false} FirstStatusHolds(ks: Keys, s: Status, i: nat)
    requires i < |ks| && ks[i].meta.status == s && FindStatus(ks[..i], s).None?
    ensures FindStatus(ks, s) == Some(i)
  {
    if i < |ks| - 1 {
      assert ks[..|ks| - 1][..i] == ks[..i];
      FirstStatusHolds(ks[..|ks| - 1], s, i);
    }
  }

  lemma {:induction false} FailureSticks(ks: Keys, ps: seq<Persisted>, i: nat)
    requires i <= |ps| && Imported(ks, ps[..i]).failed
    ensures Imported(ks, ps) == Imported(ks, ps[..i])
  {
    if i < |ps| {
      assert ps[..|ps| - 1][..i] == ps[..i];
      FailureSticks(ks, ps[..|ps| - 1], i);
    } else {
      assert ps[..i] == ps;
    }
  }
}
