/** Whose transcript a lease is: the read that fails when two runners have a hand in it, and exactly when they do. */
module LeaseOwner {
  import opened Options
  import opened Sorting
  import opened Transcripts
  import HubModel
  import HubFacts

  /** Key `k` is on record for a lease, from `runner`. */
  predicate Owns(l: Ledger, lease: Lease, k: Key, runner: string)
  {
    k in l.owners && l.owners[k] == (lease, runner)
  }

  /** Two keys of the lease are on record from different runners. */
  ghost predicate Contested(l: Ledger, lease: Lease)
  {
    exists j, x, k, y :: Owns(l, lease, j, x) && Owns(l, lease, k, y) && x != y
  }

  /** Every key of the lease is on record from `runner`. */
  ghost predicate SoleOwner(l: Ledger, lease: Lease, runner: string)
  {
    forall k, x :: Owns(l, lease, k, x) ==> x == runner
  }

  datatype Answer = SeveralRunners | Owner(runner: Option<string>)

  function OwnersOf(l: Ledger, lease: Lease): set<string>
  {
    set k | k in l.owners && l.owners[k].0 == lease :: l.owners[k].1
  }

  /** The read: it fails exactly on a contested lease, answers nobody exactly when no key is on record, and else the
      one runner every key is on record from. */
  method LeaseTranscriptOwner(l: Ledger, lease: Lease) returns (answer: Answer)
    ensures answer.SeveralRunners? <==> Contested(l, lease)
    ensures answer == Owner(None) <==> forall k, x :: !Owns(l, lease, k, x)
    ensures answer.Owner? && answer.runner.Some? ==> SoleOwner(l, lease, answer.runner.value)
  {
    var owners := OwnersOf(l, lease);
    assert forall k, x :: Owns(l, lease, k, x) ==> x in owners;
    forall x | x in owners
      ensures exists k :: Owns(l, lease, k, x)
    {
      var k :| k in l.owners && l.owners[k].0 == lease && l.owners[k].1 == x;
      assert Owns(l, lease, k, x);
    }
    if owners == {} {
      return Owner(None);
    }
    var first :| first in owners;
    if owners != {first} {
      ghost var second :| second in owners && second != first;
      return SeveralRunners;
    }
    return Owner(Some(first));
  }

  // ----- when a lease comes to be contested

  /** The record is decided: from the epoch's holder as far as known, of a fresh seq, under a key not accepted. */
  predicate IsDecided(b: Batch, tenant: string, runner: string, owners: EpochOwners, r: Record)
  {
    && ShipsFromHolder(owners, tenant, runner, r) && r.seqNo > b.mark
    && !Decided(b.ledger, KeyOf(tenant, r), Accepted)
  }

  lemma OwnersAfterRecord(b: Batch, tenant: string, runner: string, owners: EpochOwners, r: Record)
    ensures TakeRecord(b, tenant, runner, owners, r).ledger.owners ==
            if IsDecided(b, tenant, runner, owners, r) then
              b.ledger.owners[KeyOf(tenant, r) := (LeaseOf(tenant, r), runner)]
            else b.ledger.owners
  {
  }

  /** A record makes a lease contested exactly when it is decided, is of that lease, and another of the lease's keys is
      on record from another runner. */
  lemma ContestArisesExactly(b: Batch, tenant: string, runner: string, owners: EpochOwners, r: Record, lease: Lease)
    requires !Contested(b.ledger, lease)
    ensures
      Contested(TakeRecord(b, tenant, runner, owners, r).ledger, lease) <==>
        && IsDecided(b, tenant, runner, owners, r) && LeaseOf(tenant, r) == lease
        && exists k, x :: k != KeyOf(tenant, r) && Owns(b.ledger, lease, k, x) && x != runner
  {
    var l, l', key := b.ledger, TakeRecord(b, tenant, runner, owners, r).ledger, KeyOf(tenant, r);
    OwnersAfterRecord(b, tenant, runner, owners, r);
    if IsDecided(b, tenant, runner, owners, r) {
      forall k, x
        ensures Owns(l', lease, k, x) <==>
                if k == key then LeaseOf(tenant, r) == lease && x == runner else Owns(l, lease, k, x)
      {
      }
      if LeaseOf(tenant, r) == lease {
        assert Owns(l', lease, key, runner);
      }
    } else {
      assert forall k, x :: Owns(l', lease, k, x) <==> Owns(l, lease, k, x);
    }
  }

  // ----- a lease minted before it is shipped to

  /** The epoch of a lease is owned by `runner`. */
  predicate Minted(owners: EpochOwners, lease: Lease, runner: string)
  {
    (lease.0, lease.1, lease.3) in owners && owners[(lease.0, lease.1, lease.3)] == runner
  }

  lemma RecordKeepsSoleOwner(b: Batch, tenant: string, runner: string, owners: EpochOwners, r: Record, lease: Lease,
                             holder: string)
    requires SoleOwner(b.ledger, lease, holder) && Minted(owners, lease, holder)
    ensures SoleOwner(TakeRecord(b, tenant, runner, owners, r).ledger, lease, holder)
  {
    var l' := TakeRecord(b, tenant, runner, owners, r).ledger;
    OwnersAfterRecord(b, tenant, runner, owners, r);
    forall k, x | Owns(l', lease, k, x)
      ensures x == holder
    {
      assert Owns(b.ledger, lease, k, x) || LeaseOf(tenant, r) == lease;
    }
  }

  lemma {:induction false} RecordsKeepSoleOwner(b: Batch, tenant: string, runner: string, owners: EpochOwners,
                                                records: seq<Record>, lease: Lease, holder: string)
    requires SoleOwner(b.ledger, lease, holder) && Minted(owners, lease, holder)
    ensures SoleOwner(TakeRecords(b, tenant, runner, owners, records).ledger, lease, holder)
  {
    if records != [] {
      var some := records[..|records| - 1];
      RecordsKeepSoleOwner(b, tenant, runner, owners, some, lease, holder);
      RecordKeepsSoleOwner(TakeRecords(b, tenant, runner, owners, some), tenant, runner, owners,
                           records[|records| - 1], lease, holder);
    }
  }

  lemma PushKeepsSoleOwner(l: Ledger, p: Push, lease: Lease, holder: string)
    requires SoleOwner(l, lease, holder) && Minted(p.owners, lease, holder)
    ensures SoleOwner(Ingested(l, p.tenant, p.runner, p.owners, p.records), lease, holder)
  {
    var b := Shipped(l, p.tenant, p.runner, p.owners, p.records);
    RecordsKeepSoleOwner(Start(l, p.runner), p.tenant, p.runner, p.owners, Sort(p.records, BY_SEQ), lease, holder);
    forall k, x | Owns(Ingested(l, p.tenant, p.runner, p.owners, p.records), lease, k, x)
      ensures x == holder
    {
      assert Owns(b.ledger, lease, k, x);
    }
  }

  /** Over any pushes that all see the lease's epoch owned by one runner, nobody else ever has a key of the lease. */
  lemma {:induction false} MintedLeaseHasOneOwner(pushes: seq<Push>, k: nat, lease: Lease, holder: string)
    requires k <= |pushes| && forall i :: 0 <= i < k ==> Minted(pushes[i].owners, lease, holder)
    ensures SoleOwner(LedgerAt(pushes, k), lease, holder) && !Contested(LedgerAt(pushes, k), lease)
  {
    if k > 0 {
      MintedLeaseHasOneOwner(pushes, k - 1, lease, holder);
      PushKeepsSoleOwner(LedgerAt(pushes, k - 1), pushes[k - 1], lease, holder);
    }
  }

  /** With the fact lane: once an epoch is minted, pushes the hub takes at any later points of any run leave its leases
      uncontested, so the read never fails. */
  lemma MintingFirstPreventsContest(s0: HubModel.HubState, run: seq<HubModel.Event>, j: nat, times: seq<nat>,
                                    pushes: seq<Push>, lease: Lease, holder: string)
    requires j <= |run| && Minted(HubModel.At(s0, run, j).epochOwners, lease, holder)
    requires |times| == |pushes| && forall i :: 0 <= i < |pushes| ==> j <= times[i] <= |run|
    requires forall i :: 0 <= i < |pushes| ==> pushes[i].owners == HubModel.At(s0, run, times[i]).epochOwners
    ensures SoleOwner(LedgerAt(pushes, |pushes|), lease, holder) && !Contested(LedgerAt(pushes, |pushes|), lease)
  {
    forall i | 0 <= i < |pushes|
      ensures Minted(pushes[i].owners, lease, holder)
    {
      HubFacts.OwnerIsForever(s0, run, j, times[i]);
    }
    MintedLeaseHasOneOwner(pushes, |pushes|, lease, holder);
  }

  /** One record of a new key pushed before any mint. */
  lemma UnmintedPushOwns(l: Ledger, runner: string, r: Record)
    requires MarkOf(l, runner) < r.seqNo && KeyOf("t", r) !in l.state
    ensures
      var l' := AfterPush(l, Push("t", runner, map[], [r]));
      && l'.owners == l.owners[KeyOf("t", r) := (LeaseOf("t", r), runner)]
      && l'.state.Keys == l.state.Keys + {KeyOf("t", r)} && l'.marks.Keys == l.marks.Keys + {runner}
  {
    OneRecordShips(l, "t", runner, map[], r);
    OwnersAfterRecord(Start(l, runner), "t", runner, map[], r);
  }

  /** Without a mint two runners can ship to one lease, and its read then fails. */
  lemma EarlyPushesContest()
    ensures
      var pushes := [Push("t", "r", map[], [SmallRecord(1, "a")]), Push("t", "q", map[], [SmallRecord(1, "b")])];
      Contested(LedgerAt(pushes, 2), ("t", "c", "n", 1))
  {
    var pushes := [Push("t", "r", map[], [SmallRecord(1, "a")]), Push("t", "q", map[], [SmallRecord(1, "b")])];
    var first, second := SmallRecord(1, "a"), SmallRecord(1, "b");
    assert KeyOf("t", first) != KeyOf("t", second);
    UnmintedPushOwns(EMPTY_LEDGER, "r", first);
    var l1 := AfterPush(EMPTY_LEDGER, pushes[0]);
    assert LedgerAt(pushes, 1) == l1 by {
      assert LedgerAt(pushes, 0) == EMPTY_LEDGER;
    }
    UnmintedPushOwns(l1, "q", second);
    var l2, lease := LedgerAt(pushes, 2), ("t", "c", "n", 1);
    assert Owns(l2, lease, KeyOf("t", first), "r") && Owns(l2, lease, KeyOf("t", second), "q");
  }
}
