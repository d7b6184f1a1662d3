/**
 Merging the two key sources into one authentication snapshot, and the guarded sections
 of the store that publishes it (crates/shbox/src/auth.rs).

 A key is named by its fingerprint. Parsing is not part of this model: a source is the
 list of fingerprints it yields.
 */
module AuthSnapshots {
  import opened Options
  import opened KeyStores

  datatype Fingerprint = Fingerprint(text: string)

  datatype Role = Normal | Admin

  datatype Snapshot = Snapshot(keys: seq<Fingerprint>, principals: map<Fingerprint, Role>, adminCount: nat)

  predicate NoDuplicates(s: seq<Fingerprint>) {
    forall i, j :: 0 <= i < j < |s| ==> s[i] != s[j]
  }

  /** Admin if the host source lists the key, otherwise Normal if the sandbox source does. */
  function RoleOf(host: seq<Fingerprint>, allowed: seq<Fingerprint>, key: Fingerprint): Option<Role> {
    if key in host then Some(Admin) else if key in allowed then Some(Normal) else None
  }

  function Authenticate(snapshot: Snapshot, key: Fingerprint): Option<Role> {
    if key in snapshot.principals then Some(snapshot.principals[key]) else None
  }

  /** What a merge loop carries: the roles given so far and the keys in the order they came. */
  datatype Merged = Merged(roles: map<Fingerprint, Role>, keys: seq<Fingerprint>)

  /** A key that is already known keeps its role and its place. */
  function Enter(m: Merged, key: Fingerprint, role: Role): Merged {
    if key in m.roles then m else Merged(m.roles[key := role], m.keys + [key])
  }

  /** The state after the first `n` keys of a source. */
  function Entered(m: Merged, source: seq<Fingerprint>, n: nat, role: Role): Merged
    requires n <= |source|
  {
    if n == 0 then m else Enter(Entered(m, source, n - 1, role), source[n - 1], role)
  }

  const Nothing := Merged(map[], [])

  function BothSources(host: seq<Fingerprint>, allowed: seq<Fingerprint>): Merged {
    Entered(Entered(Nothing, host, |host|, Admin), allowed, |allowed|, Normal)
  }

  /** One merge loop. */
  method AddSource(known: Merged, source: seq<Fingerprint>, role: Role) returns (m: Merged, added: nat)
    ensures m == Entered(known, source, |source|, role) && |m.keys| == |known.keys| + added
  {
    m, added := known, 0;
    for i := 0 to |source|
      invariant m == Entered(known, source, i, role) && |m.keys| == |known.keys| + added
    {
      if source[i] !in m.roles {
        m := Merged(m.roles[source[i] := role], m.keys + [source[i]]);
        added := added + 1;
      }
    }
  }

  /** The snapshot of two sources; None is the error for an empty union. Every key gets the
      role its sources give it whatever the order or overlap; the host keys lead the list and
      are exactly the counted admins. */
  method Merge(host: seq<Fingerprint>, allowed: seq<Fingerprint>) returns (r: Option<Snapshot>)
    ensures r.None? <==> host == [] && allowed == []
    ensures r.Some? ==> r.value.keys == BothSources(host, allowed).keys
    ensures r.Some? ==> NoDuplicates(r.value.keys) && forall key :: key in r.value.keys <==> key in r.value.principals
    ensures r.Some? ==> forall key :: Authenticate(r.value, key) == RoleOf(host, allowed, key)
    ensures r.Some? ==> r.value.adminCount <= |r.value.keys|
    ensures r.Some? ==> forall i :: 0 <= i < |r.value.keys| ==>
      (i < r.value.adminCount <==> r.value.keys[i] in host)
  {
    var admins, adminCount := AddSource(Nothing, host, Admin);
    var m, _ := AddSource(admins, allowed, Normal);
    MergedEmpty(host, allowed);
    if m.keys == [] {
      return None;
    }
    r := Some(Snapshot(m.keys, m.roles, adminCount));
    MergedConsistent(host, allowed);
    forall key ensures Authenticate(r.value, key) == RoleOf(host, allowed, key) {
      MergedRole(host, allowed, key);
    }
    EnteredExtends(admins, allowed, |allowed|, Normal);
    forall i | 0 <= i < |m.keys| ensures i < adminCount <==> m.keys[i] in host {
      AdminsLead(host, allowed, i);
    }
  }

  // ---- what a merge gives --------------------------------------------------------------

  /** The roles and the list speak of the same keys, each listed once. */
  ghost predicate Consistent(m: Merged) {
    && (forall key :: key in m.roles <==> key in m.keys)
    && NoDuplicates(m.keys)
  }

  lemma EnterConsistent(m: Merged, key: Fingerprint, role: Role)
    requires Consistent(m)
    ensures Consistent(Enter(m, key, role))
  {
    if key !in m.roles {
      assert forall k :: k in m.keys + [key] <==> k in m.keys || k == key;
    }
  }

  lemma {:induction false} EnteredConsistent(m: Merged, source: seq<Fingerprint>, n: nat, role: Role)
    requires n <= |source| && Consistent(m)
    ensures Consistent(Entered(m, source, n, role))
  {
    if n > 0 {
      EnteredConsistent(m, source, n - 1, role);
      EnterConsistent(Entered(m, source, n - 1, role), source[n - 1], role);
    }
  }

  lemma {:induction false} EnteredExtends(m: Merged, source: seq<Fingerprint>, n: nat, role: Role)
    requires n <= |source|
    ensures m.keys <= Entered(m, source, n, role).keys
  {
    if n > 0 {
      EnteredExtends(m, source, n - 1, role);
    }
  }

  predicate Among(source: seq<Fingerprint>, n: nat, key: Fingerprint)
    requires n <= |source|
  {
    exists i :: 0 <= i < n && source[i] == key
  }

  lemma {:induction false} EnteredRole(m: Merged, source: seq<Fingerprint>, n: nat, role: Role, key: Fingerprint)
    requires n <= |source|
    ensures var e := Entered(m, source, n, role);
      && (key in e.roles <==> key in m.roles || Among(source, n, key))
      && (key in e.roles ==> e.roles[key] == if key in m.roles then m.roles[key] else role)
  {
    if n > 0 {
      EnteredRole(m, source, n - 1, role, key);
      if Among(source, n, key) {
        var i :| 0 <= i < n && source[i] == key;
        assert i == n - 1 || Among(source, n - 1, key);
      }
    }
  }

  lemma AmongAll(source: seq<Fingerprint>, key: Fingerprint)
    ensures Among(source, |source|, key) <==> key in source
  {
  }

  lemma MergedRole(host: seq<Fingerprint>, allowed: seq<Fingerprint>, key: Fingerprint)
    ensures var roles := BothSources(host, allowed).roles;
      (if key in roles then Some(roles[key]) else None) == RoleOf(host, allowed, key)
  {
    EnteredRole(Nothing, host, |host|, Admin, key);
    EnteredRole(Entered(Nothing, host, |host|, Admin), allowed, |allowed|, Normal, key);
    AmongAll(host, key);
    AmongAll(allowed, key);
  }

  lemma MergedConsistent(host: seq<Fingerprint>, allowed: seq<Fingerprint>)
    ensures Consistent(BothSources(host, allowed)) && Consistent(Entered(Nothing, host, |host|, Admin))
  {
    EnteredConsistent(Nothing, host, |host|, Admin);
    EnteredConsistent(Entered(Nothing, host, |host|, Admin), allowed, |allowed|, Normal);
  }

  lemma MergedEmpty(host: seq<Fingerprint>, allowed: seq<Fingerprint>)
    ensures BothSources(host, allowed).keys == [] <==> host == [] && allowed == []
  {
    var m := BothSources(host, allowed);
    MergedConsistent(host, allowed);
    if host != [] {
      MergedRole(host, allowed, host[0]);
      assert host[0] in m.keys;
    } else if allowed != [] {
      MergedRole(host, allowed, allowed[0]);
      assert allowed[0] in m.keys;
    }
  }

  /** The host keys come first and nothing behind them is one of them. */
  lemma AdminsLead(host: seq<Fingerprint>, allowed: seq<Fingerprint>, i: nat)
    requires i < |BothSources(host, allowed).keys|
    ensures i < |Entered(Nothing, host, |host|, Admin).keys| <==> BothSources(host, allowed).keys[i] in host
  {
    var admins, all := Entered(Nothing, host, |host|, Admin), BothSources(host, allowed);
    var key := all.keys[i];
    MergedConsistent(host, allowed);
    EnteredExtends(admins, allowed, |allowed|, Normal);
    EnteredRole(Nothing, host, |host|, Admin, key);
    AmongAll(host, key);
    if key in admins.keys {
      var j :| 0 <= j < |admins.keys| && admins.keys[j] == key;
      assert all.keys[j] == key;
    }
  }

  /** Where a key that a source contributed stands in it: its first occurrence there, and the
      list was just long enough to take it as number `i`. */
  lemma {:induction false} NewKeyPlace(m: Merged, source: seq<Fingerprint>, n: nat, role: Role, i: nat) returns (p: nat)
    requires n <= |source| && |m.keys| <= i < |Entered(m, source, n, role).keys|
    ensures p < n && source[p] == Entered(m, source, n, role).keys[i] && |Entered(m, source, p, role).keys| == i
    ensures source[p] !in Entered(m, source, p, role).roles
  {
    var before := Entered(m, source, n - 1, role);
    if i < |before.keys| {
      p := NewKeyPlace(m, source, n - 1, role, i);
    } else {
      p := n - 1;
    }
  }

  lemma {:induction false} KeysNeverShrink(m: Merged, source: seq<Fingerprint>, p: nat, q: nat, role: Role)
    requires p <= q <= |source|
    ensures |Entered(m, source, p, role).keys| <= |Entered(m, source, q, role).keys|
    decreases q - p
  {
    if p < q {
      KeysNeverShrink(m, source, p, q - 1, role);
    }
  }

  /** Keys that one source contributes are listed in the order of their first occurrences in
      it. */
  lemma FileOrder(m: Merged, source: seq<Fingerprint>, role: Role, i: nat, j: nat) returns (p: nat, q: nat)
    requires |m.keys| <= i < j < |Entered(m, source, |source|, role).keys|
    ensures p < q < |source| && source[p] !in source[..p] && source[q] !in source[..q]
    ensures var keys := Entered(m, source, |source|, role).keys; source[p] == keys[i] && source[q] == keys[j]
  {
    p := NewKeyPlace(m, source, |source|, role, i);
    q := NewKeyPlace(m, source, |source|, role, j);
    if q <= p {
      KeysNeverShrink(m, source, q, p, role);
    }
    FirstThere(m, source, p, role);
    FirstThere(m, source, q, role);
  }

  lemma FirstThere(m: Merged, source: seq<Fingerprint>, p: nat, role: Role)
    requires p < |source| && source[p] !in Entered(m, source, p, role).roles
    ensures source[p] !in source[..p]
  {
    EnteredRole(m, source, p, role, source[p]);
  }

  datatype RefreshOutcome = Unchanged | Reloaded | LoadRejected

  /** The store object. Its two guarded sections are the `FastCompare` step of `KeyStores`
      and, run as one section, its `Choose` and `ReadFile` steps. */
  class KeyStore {
    var snapshot: Snapshot
    var identities: Identities
    var revalidate: bool

    constructor (snapshot: Snapshot, identities: Identities)
      ensures this.snapshot == snapshot && this.identities == identities && !revalidate
    {
      this.snapshot := snapshot;
      this.identities := identities;
      revalidate := false;
    }

    /** Force the next check to load even if the identities look unchanged. */
    method Invalidate()
      modifies this`revalidate
      ensures revalidate
    {
      revalidate := true;
    }

    /** The read-locked comparison. */
    method UnchangedFastPath(observed: Identities) returns (same: bool)
      ensures same <==> !revalidate && identities == observed
    {
      same := false;
      if !revalidate {
        same := identities == observed;
      }
    }

    /** The write-locked section: the flag is consumed, a matching unforced store is left
        alone, and otherwise the observed identities are adopted whether or not the load
        was accepted, while only an accepted load replaces the snapshot. */
    method RefreshUnderWriteGuard(observed: Identities, load: Option<Snapshot>) returns (outcome: RefreshOutcome)
      modifies this
      ensures !revalidate
      ensures outcome == Unchanged <==> !old(revalidate) && old(identities) == observed
      ensures outcome == Reloaded ==> load.Some? && snapshot == load.value
      ensures outcome == LoadRejected ==> load.None?
      ensures outcome != Reloaded ==> snapshot == old(snapshot)
      ensures identities == observed
    {
      var forced := revalidate;
      revalidate := false;
      if !forced && identities == observed {
        return Unchanged;
      }
      identities := observed;
      if load.None? {
        return LoadRejected;
      }
      snapshot := load.value;
      outcome := Reloaded;
    }
  }
}
