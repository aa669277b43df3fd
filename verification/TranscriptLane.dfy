/** The transcript lane's tables as a push updates them in place. */
module TranscriptLane {
  import opened Numbers
  import opened Sorting
  import opened Transcripts

  class Lane {
    var marks: map<string, int>
    var owners: map<Key, (Lease, string)>
    var bytes: map<(string, string), nat>
    var state: map<Key, Verdict>
    var rejected: map<Key, Record>
    var segments: map<Lease, seq<Record>>

    function Value(): Ledger
      reads this
    {
      Ledger(marks, owners, bytes, state, rejected, segments)
    }

    constructor ()
      ensures Value() == EMPTY_LEDGER && Balanced(Value())
    {
      marks, owners, bytes, state, rejected, segments := map[], map[], map[], map[], map[], map[];
      new;
      EmptyIsBalanced();
    }

    /** A batched push: records in seq order, each adjudicated at most once and filed in one list. */
    method Ingest(tenant: string, runner: string, epochOwners: EpochOwners, records: seq<Record>)
      returns (mark: int, acks: Acks)
      requires Balanced(Value())
      modifies this
      ensures Value() == Ingested(old(Value()), tenant, runner, epochOwners, records)
      ensures Balanced(Value()) && Grows(old(Value()), Value())
      ensures
        var b := Shipped(old(Value()), tenant, runner, epochOwners, records);
        mark == b.mark && acks == b.acks
    {
      mark := if runner in marks then marks[runner] else 0;
      acks := NO_ACKS;
      var batch := Sort(records, Transcripts.BY_SEQ);
      ghost var start := Start(Value(), runner);
      ghost var taken := start;
      for k := 0 to |batch|
        invariant taken == TakeRecords(start, tenant, runner, epochOwners, batch[..k])
        invariant taken == Batch(Value(), mark, acks)
      {
        assert batch[..k + 1][..k] == batch[..k];
        var record := batch[k];
        taken := TakeRecord(taken, tenant, runner, epochOwners, record);
        mark, acks := Adjudicate(tenant, runner, epochOwners, record, mark, acks);
      }
      assert batch[..|batch|] == batch;
      marks := marks[runner := mark];
      IngestKeepsBalance(old(Value()), tenant, runner, epochOwners, records);
    }

    /** One record of a batch, in the order the checks are made. */
    method Adjudicate(tenant: string, runner: string, epochOwners: EpochOwners, record: Record, mark: int, acks: Acks)
      returns (mark': int, acks': Acks)
      modifies this
      ensures Batch(Value(), mark', acks') ==
              TakeRecord(Batch(old(Value()), mark, acks), tenant, runner, epochOwners, record)
    {
      var seqNo, key := record.seqNo, (tenant, record.segment, record.turnStart);
      mark', acks' := mark, acks;
      if (tenant, record.chunk, record.epoch) in epochOwners
         && epochOwners[(tenant, record.chunk, record.epoch)] != runner {
        acks' := acks.(refused := acks.refused + [seqNo]);
        mark' := Max(mark, seqNo);
        return;
      }
      if seqNo <= mark {
        if key in state && state[key] == Rejected {
          acks' := acks.(capped := acks.capped + [seqNo]);
        } else {
          acks' := acks.(already := acks.already + [seqNo]);
        }
        return;
      }
      mark' := Max(mark, seqNo);
      if key in state && state[key] == Accepted {
        acks' := acks.(applied := acks.applied + [seqNo]);
        return;
      }
      var capped := Credit(tenant, runner, record);
      if capped {
        acks' := acks.(capped := acks.capped + [seqNo]);
      } else {
        acks' := acks.(applied := acks.applied + [seqNo]);
      }
    }

    /** Decides a record not accepted before: over a cap its identity only is kept, else it is credited and retained. */
    method Credit(tenant: string, runner: string, record: Record) returns (capped: bool)
      modifies this
      ensures capped == OverCap(old(Value()), tenant, record)
      ensures Value() == if capped then Cap(old(Value()), tenant, runner, record)
                         else Accept(old(Value()), tenant, runner, record)
    {
      var key := (tenant, record.segment, record.turnStart);
      var lease := (tenant, record.chunk, record.node, record.epoch);
      owners := owners[key := (lease, runner)];
      var stored := if (tenant, record.chunk) in bytes then bytes[(tenant, record.chunk)] else 0;
      if record.size > RECORD_MAX_BYTES || stored + record.size > CHUNK_BUDGET_BYTES {
        state := state[key := Rejected];
        rejected := rejected[key := Bare(record)];
        return true;
      }
      state := state[key := Accepted];
      rejected := rejected - {key};
      bytes := bytes[(tenant, record.chunk) := stored + record.size];
      segments := segments[lease := Filed(if lease in segments then segments[lease] else [], record)];
      return false;
    }
  }
}
