/** DeleteAccount: what its crash points keep. */
module DeletionTheorems {
  import opened Texts
  import opened Records
  import opened Protocol
  import opened StoreInvariant
  import opened ProtocolInvariant

  // ---- crash safety ------------------------------------------------------------------

  /** At every crash point each key and credential record refers to an existing
      account, and no record of another account has changed. */
  lemma CascadeCrashSafe(d: Disk, ring: Ring, h: History, a: Uuid, d': Disk)
    requires StoreInv(d, ring, h) && a in d.accounts && CascadePoint(d, a, d')
    ensures forall b :: b in d'.keys ==> d'.keys[b].owner in d'.accounts
    ensures forall c :: c in d'.creds ==> c in d'.accounts
    ensures forall c | c != a :: c in d.accounts <==> c in d'.accounts
    ensures forall c | c != a && c in d.accounts :: d'.accounts[c] == d.accounts[c]
    ensures forall c | c != a :: c in d.creds <==> c in d'.creds
    ensures forall c | c != a && c in d.creds :: d'.creds[c] == d.creds[c]
    ensures forall b | b in d.keys && d.keys[b].owner != a :: b in d'.keys && d'.keys[b] == d.keys[b]
  {
    CascadeShape(d, a, d');
  }

  /** Once the credential is gone no key authenticates as the account. */
  lemma NoKeyOutlivesCredential(d: Disk, a: Uuid, d': Disk, deployment: Uuid, blob: Blob)
    requires a in d.accounts && a in d.creds && CascadePoint(d, a, d') && a !in d'.creds
    ensures var r := LookupByPublicKey(d', deployment, blob); r.Ok? ==> r.value.0 != a
  {
  }

  /** Rerunning from any crash point before the last unlink passes through the
      same points and reaches the same final directory. */
  lemma CascadeRerun(d: Disk, a: Uuid, d': Disk)
    requires a in d.accounts && CascadePoint(d, a, d') && a in d'.accounts
    ensures Cascade(d', a) == Cascade(d, a)
    ensures forall d'' :: CascadePoint(d', a, d'') ==> CascadePoint(d, a, d'')
  {
    var cut := d.keys.Keys - d'.keys.Keys;
    assert cut <= KeysOf(d, a) && KeysOf(d', a) == KeysOf(d, a) - cut;
    assert d'.keys == d.keys - cut;
    assert d'.keys - KeysOf(d', a) == d.keys - KeysOf(d, a);
    assert Cascade(d', a) == Cascade(d, a);
    forall d'' | CascadePoint(d', a, d'') ensures CascadePoint(d, a, d'') {
      if gone :| gone <= KeysOf(d', a) && d'' == d'.(keys := d'.keys - gone) {
        RerunKeys(d, a, d', cut, gone, d'');
      }
    }
  }

  lemma RerunKeys(d: Disk, a: Uuid, d': Disk, cut: set<Blob>, gone: set<Blob>, d'': Disk)
    requires a in d.accounts && CascadePoint(d, a, d') && a in d'.accounts
    requires cut <= KeysOf(d, a) && d'.keys == d.keys - cut
    requires gone <= KeysOf(d', a) && d'' == d'.(keys := d'.keys - gone)
    ensures CascadePoint(d, a, d'')
  {
    assert d''.keys == d.keys - (cut + gone);
    if d'.creds == d.creds {
      assert cut + gone <= KeysOf(d, a) && d'' == d.(keys := d.keys - (cut + gone));
    } else {
      assert cut == KeysOf(d, a);
    }
  }
}
