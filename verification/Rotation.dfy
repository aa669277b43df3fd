/** Credential rotation by any number of processes: each takes the lock, reads the credential file, writes a
    temporary copy, renames it over the file, appends an audit line and unlocks. Steps of different processes
    interleave freely, a step can fail by exception, and readers look at the file without the lock. */
module Rotation {
  import opened Options

  /** A JSON value: a string, or anything else as its text. */
  datatype Json = Text(text: string) | Other(json: string)

  /** A credential document: its `tokens` object and its other fields. Anything else cannot be rotated. */
  datatype Doc = Unusable | Doc(tokens: map<string, Json>, fields: map<string, Json>)

  /** Text encoding and digest, as the library gives them. */
  datatype Codec = Codec(parse: string -> Doc, render: Doc -> string, digest: string -> string)

  ghost predicate Faithful(c: Codec)
  {
    forall d: Doc :: d.Doc? ==> c.parse(c.render(d)) == d
  }

  const ACCESS: string := "access_token"
  const REFRESH: string := "refresh_token"
  const LAST_REFRESH: string := "last_refresh"
  const ACCOUNT: string := "account_id"

  /** The account a document names; one that is no string names none. */
  function AccountOf(d: Doc): Option<string>
  {
    if d.Doc? && ACCOUNT in d.tokens && d.tokens[ACCOUNT].Text? then Some(d.tokens[ACCOUNT].text) else None
  }

  /** The document with both tokens and the refresh time replaced and everything else kept. */
  function Rotated(d: Doc, access: string, refresh: string, at: string): Doc
    requires d.Doc?
  {
    Doc(d.tokens[ACCESS := Text(access)][REFRESH := Text(refresh)], d.fields[LAST_REFRESH := Other(at)])
  }

  /** Where a process stands. `seen` is the text it read, `text` the one it is writing, `tmp` its temporary file. */
  datatype Pc =
    | Idle
    | Waiting
    | Locked
    | HasRead(seen: string)
    | Writing(seen: string, text: string, tmp: string)
    | Replaced(seen: string, text: string)
    | Leaving

  predicate Inside(pc: Pc)
  {
    !pc.Idle? && !pc.Waiting?
  }

  /** One completed replacement of the file, and whether its audit line was written. */
  datatype Entry = Entry(seen: string, wrote: string, audited: bool)

  /** `log` and `observed` are the history: every replacement, and every text a lock-free reader has seen. */
  datatype State = State(file: Option<string>, lock: Option<int>, procs: map<int, Pc>, audit: seq<string>,
                         log: seq<Entry>, observed: seq<string>)

  function Initial(file: Option<string>): State
  {
    State(file, None, map[], [], [], [])
  }

  datatype Event =
    | Begin(p: int)
    | Acquire(p: int)
    | ReadFile(p: int)
    | Compute(p: int, access: string, refresh: string, at: string)
    | WriteSome(p: int, upto: nat)
    | Replace(p: int)
    | Append(p: int)
    | Fail(p: int)
    | Unlock(p: int)
    | Observe(p: int)

  function PcOf(s: State, p: int): Pc
  {
    if p in s.procs then s.procs[p] else Idle
  }

  function Goto(s: State, p: int, pc: Pc): State
  {
    s.(procs := s.procs[p := pc])
  }

  function AuditedLast(log: seq<Entry>): seq<Entry>
  {
    if log == [] then [] else log[|log| - 1 := log[|log| - 1].(audited := true)]
  }

  /** A step does something only where the process stands at it. */
  function Step(c: Codec, s: State, e: Event): State
  {
    var pc := PcOf(s, e.p);
    match e
    case Begin(p) => if pc.Idle? then Goto(s, p, Waiting) else s
    case Acquire(p) => if pc.Waiting? && s.lock.None? then Goto(s, p, Locked).(lock := Some(p)) else s
    case ReadFile(p) =>
      if !pc.Locked? then s
      else if s.file.None? || c.parse(s.file.value).Unusable? then Goto(s, p, Leaving)
      else Goto(s, p, HasRead(s.file.value))
    case Compute(p, access, refresh, at) =>
      if pc.HasRead? && c.parse(pc.seen).Doc? then
        Goto(s, p, Writing(pc.seen, c.render(Rotated(c.parse(pc.seen), access, refresh, at)), ""))
      else s
    case WriteSome(p, upto) =>
      if pc.Writing? && |pc.tmp| <= upto <= |pc.text| then Goto(s, p, pc.(tmp := pc.text[..upto])) else s
    case Replace(p) =>
      if pc.Writing? && pc.tmp == pc.text then
        Goto(s, p, Replaced(pc.seen, pc.text)).(file := Some(pc.tmp), log := s.log + [Entry(pc.seen, pc.tmp, false)])
      else s
    case Append(p) =>
      if pc.Replaced? then
        Goto(s, p, Leaving).(audit := s.audit + [c.digest(pc.text)], log := AuditedLast(s.log))
      else s
    case Fail(p) => if Inside(pc) then Goto(s, p, Leaving) else s
    case Unlock(p) => if pc.Leaving? then Goto(s, p, Idle).(lock := None) else s
    case Observe(p) => if s.file.Some? then s.(observed := s.observed + [s.file.value]) else s
  }

  function At(c: Codec, file: Option<string>, run: seq<Event>, k: nat): State
    requires k <= |run|
  {
    if k == 0 then Initial(file) else Step(c, At(c, file, run, k - 1), run[k - 1])
  }

  // ----- the invariant

  /** The process inside the lock, if any, has the file as it read or wrote it. */
  ghost predicate PcFits(c: Codec, s: State, pc: Pc)
  {
    match pc
    case HasRead(seen) => s.file == Some(seen) && c.parse(seen).Doc?
    case Writing(seen, text, tmp) =>
      s.file == Some(seen) && c.parse(seen).Doc? && tmp <= text && Successor(c, seen, text)
    case Replaced(seen, text) => s.log != [] && s.log[|s.log| - 1] == Entry(seen, text, false)
    case _ => true
  }

  /** A text that rotates the document another text holds. */
  ghost predicate Successor(c: Codec, seen: string, text: string)
  {
    c.parse(seen).Doc? && exists access, refresh, at :: text == c.render(Rotated(c.parse(seen), access, refresh, at))
  }

  /** The digests of the audited entries, in order. */
  function AuditOf(c: Codec, log: seq<Entry>): seq<string>
  {
    if log == [] then []
    else
      var rest, last := AuditOf(c, log[..|log| - 1]), log[|log| - 1];
      if last.audited then rest + [c.digest(last.wrote)] else rest
  }

  /** Each replacement read exactly what the one before it wrote, and wrote a rotation of what it read. */
  ghost predicate Chained(c: Codec, file: Option<string>, log: seq<Entry>)
  {
    && (log != [] ==> file == Some(log[0].seen))
    && (forall i :: 0 < i < |log| ==> log[i].seen == log[i - 1].wrote)
    && (forall i :: 0 <= i < |log| ==> Successor(c, log[i].seen, log[i].wrote))
  }

  ghost predicate Complete(file: Option<string>, log: seq<Entry>, text: string)
  {
    file == Some(text) || exists i :: 0 <= i < |log| && log[i].wrote == text
  }

  ghost predicate Inv(c: Codec, file: Option<string>, s: State)
  {
    && (forall p :: Inside(PcOf(s, p)) <==> s.lock == Some(p))
    && (forall p :: PcFits(c, s, PcOf(s, p)))
    && s.file == (if s.log == [] then file else Some(s.log[|s.log| - 1].wrote))
    && Chained(c, file, s.log)
    && s.audit == AuditOf(c, s.log)
    && (forall t :: t in s.observed ==> Complete(file, s.log, t))
  }

  lemma {:induction false} AuditOfMarked(c: Codec, log: seq<Entry>)
    requires log != [] && !log[|log| - 1].audited
    ensures AuditOf(c, AuditedLast(log)) == AuditOf(c, log) + [c.digest(log[|log| - 1].wrote)]
  {
    assert AuditedLast(log)[..|log| - 1] == log[..|log| - 1];
  }

  lemma ReplaceKeepsInv(c: Codec, file: Option<string>, s: State, p: int)
    requires Inv(c, file, s)
    ensures Inv(c, file, Step(c, s, Replace(p)))
  {
    var pc := PcOf(s, p);
    if pc.Writing? && pc.tmp == pc.text {
      var log' := s.log + [Entry(pc.seen, pc.tmp, false)];
      assert PcFits(c, s, pc);
      assert log'[..|log'| - 1] == s.log;
      var s' := Step(c, s, Replace(p));
      forall q
        ensures Inside(PcOf(s', q)) <==> s'.lock == Some(q)
        ensures PcFits(c, s', PcOf(s', q))
      {
        assert Inside(PcOf(s, q)) <==> s.lock == Some(q);
        assert s.lock == Some(p) by { assert Inside(PcOf(s, p)); }
      }
      forall t | t in s'.observed
        ensures Complete(file, s'.log, t)
      {
        LoggingKeepsTexts(file, s.log, Entry(pc.seen, pc.tmp, false), t);
      }
      LogGrowsChained(c, file, s.log, Entry(pc.seen, pc.tmp, false));
    }
  }

  lemma LoggingKeepsTexts(file: Option<string>, log: seq<Entry>, e: Entry, t: string)
    requires Complete(file, log, t)
    ensures Complete(file, log + [e], t)
  {
    if file != Some(t) {
      var i :| 0 <= i < |log| && log[i].wrote == t;
      assert (log + [e])[i].wrote == t;
    }
  }

  lemma LogGrowsChained(c: Codec, file: Option<string>, log: seq<Entry>, e: Entry)
    requires Chained(c, file, log) && Successor(c, e.seen, e.wrote)
    requires Some(e.seen) == if log == [] then file else Some(log[|log| - 1].wrote)
    ensures Chained(c, file, log + [e])
  {
  }

  lemma AuditingKeepsTexts(file: Option<string>, log: seq<Entry>, t: string)
    requires Complete(file, log, t)
    ensures Complete(file, AuditedLast(log), t)
  {
    if file != Some(t) {
      var i :| 0 <= i < |log| && log[i].wrote == t;
      assert AuditedLast(log)[i].wrote == t;
    }
  }

  lemma AppendKeepsInv(c: Codec, file: Option<string>, s: State, p: int)
    requires Inv(c, file, s)
    ensures Inv(c, file, Step(c, s, Append(p)))
  {
    var pc := PcOf(s, p);
    if pc.Replaced? {
      assert PcFits(c, s, pc);
      AuditOfMarked(c, s.log);
      var s' := Step(c, s, Append(p));
      forall q
        ensures Inside(PcOf(s', q)) <==> s'.lock == Some(q)
        ensures PcFits(c, s', PcOf(s', q))
      {
        assert Inside(PcOf(s, q)) <==> s.lock == Some(q);
        assert s.lock == Some(p) by { assert Inside(PcOf(s, p)); }
      }
      forall t | t in s'.observed
        ensures Complete(file, s'.log, t)
      {
        AuditingKeepsTexts(file, s.log, t);
      }
    }
  }

  lemma EntryStepKeepsInv(c: Codec, file: Option<string>, s: State, e: Event)
    requires Inv(c, file, s) && (e.Begin? || e.Acquire?)
    ensures Inv(c, file, Step(c, s, e))
  {
    var s' := Step(c, s, e);
    forall q
      ensures Inside(PcOf(s', q)) <==> s'.lock == Some(q)
      ensures PcFits(c, s', PcOf(s', q))
    {
      assert Inside(PcOf(s, q)) <==> s.lock == Some(q);
      assert PcFits(c, s, PcOf(s, q));
    }
  }

  lemma ExitStepKeepsInv(c: Codec, file: Option<string>, s: State, e: Event)
    requires Inv(c, file, s) && (e.Fail? || e.Unlock?)
    ensures Inv(c, file, Step(c, s, e))
  {
    var s' := Step(c, s, e);
    forall q
      ensures Inside(PcOf(s', q)) <==> s'.lock == Some(q)
      ensures PcFits(c, s', PcOf(s', q))
    {
      assert Inside(PcOf(s, q)) <==> s.lock == Some(q);
      assert Inside(PcOf(s, e.p)) <==> s.lock == Some(e.p);
      assert PcFits(c, s, PcOf(s, q));
    }
  }

  lemma InnerStepKeepsInv(c: Codec, file: Option<string>, s: State, e: Event)
    requires Inv(c, file, s) && (e.Compute? || e.WriteSome?)
    ensures Inv(c, file, Step(c, s, e))
  {
    var s' := Step(c, s, e);
    assert PcFits(c, s, PcOf(s, e.p));
    forall q
      ensures Inside(PcOf(s', q)) <==> s'.lock == Some(q)
      ensures PcFits(c, s', PcOf(s', q))
    {
      assert Inside(PcOf(s, q)) <==> s.lock == Some(q);
      assert PcFits(c, s, PcOf(s, q));
    }
  }

  lemma ReadStepKeepsInv(c: Codec, file: Option<string>, s: State, e: Event)
    requires Inv(c, file, s) && (e.ReadFile? || e.Observe?)
    ensures Inv(c, file, Step(c, s, e))
  {
    var s' := Step(c, s, e);
    forall q
      ensures Inside(PcOf(s', q)) <==> s'.lock == Some(q)
      ensures PcFits(c, s', PcOf(s', q))
    {
      assert Inside(PcOf(s, q)) <==> s.lock == Some(q);
      assert PcFits(c, s, PcOf(s, q));
    }
  }

  lemma {:induction false} RunKeepsInv(c: Codec, file: Option<string>, run: seq<Event>, k: nat)
    requires k <= |run|
    ensures Inv(c, file, At(c, file, run, k))
  {
    if k > 0 {
      RunKeepsInv(c, file, run, k - 1);
      var s := At(c, file, run, k - 1);
      StepKeepsInv(c, file, s, run[k - 1]);
    }
  }

  lemma StepKeepsInv(c: Codec, file: Option<string>, s: State, e: Event)
    requires Inv(c, file, s)
    ensures Inv(c, file, Step(c, s, e))
  {
    match e
    case Replace(p) => ReplaceKeepsInv(c, file, s, p);
    case Append(p) => AppendKeepsInv(c, file, s, p);
    case ReadFile(_) => ReadStepKeepsInv(c, file, s, e);
    case Compute(_, _, _, _) => InnerStepKeepsInv(c, file, s, e);
    case WriteSome(_, _) => InnerStepKeepsInv(c, file, s, e);
    case Observe(_) => ReadStepKeepsInv(c, file, s, e);
    case Fail(_) => ExitStepKeepsInv(c, file, s, e);
    case Unlock(_) => ExitStepKeepsInv(c, file, s, e);
    case _ => EntryStepKeepsInv(c, file, s, e);
  }

  // ----- main results

  /** In every run: each rotation read exactly what the previous one wrote, the first one the original file; the file
      is the last rotation's text; and a reader without the lock only ever saw a complete text. */
  lemma RotationsAreSerialized(c: Codec, file: Option<string>, run: seq<Event>, k: nat)
    requires k <= |run|
    ensures
      var s := At(c, file, run, k);
      && Chained(c, file, s.log)
      && s.file == (if s.log == [] then file else Some(s.log[|s.log| - 1].wrote))
      && (forall t :: t in s.observed ==> Complete(file, s.log, t))
  {
    RunKeepsInv(c, file, run, k);
  }

  /** A process fails between its rename and its audit line. */
  ghost predicate Tears(c: Codec, file: Option<string>, run: seq<Event>, i: nat)
    requires i < |run|
  {
    run[i].Fail? && PcOf(At(c, file, run, i), run[i].p).Replaced?
  }

  /** A process renames its finished copy over the file. */
  ghost predicate Renames(c: Codec, file: Option<string>, run: seq<Event>, i: nat)
    requires i < |run|
  {
    run[i].Replace? && ReadyToRename(PcOf(At(c, file, run, i), run[i].p))
  }

  predicate ReadyToRename(pc: Pc)
  {
    pc.Writing? && pc.tmp == pc.text
  }

  /** In the first `k` steps a rotation was torn and no rename has followed: the last rotation is the torn one. */
  ghost predicate TornSince(c: Codec, file: Option<string>, run: seq<Event>, k: nat)
    requires k <= |run|
  {
    k > 0 && (Tears(c, file, run, k - 1) || (!Renames(c, file, run, k - 1) && TornSince(c, file, run, k - 1)))
  }

  /** A process stands between its rename and its audit line. */
  ghost predicate Pending(s: State)
  {
    s.lock.Some? && PcOf(s, s.lock.value).Replaced?
  }

  /** The last rotation is audited unless it was torn or its line is still to come. */
  ghost predicate LastSettled(s: State, torn: bool)
  {
    && (Pending(s) ==> !torn)
    && (s.log != [] ==> (s.log[|s.log| - 1].audited <==> !torn && !Pending(s)))
    && (s.log == [] ==> !torn)
  }

  lemma StepSettlesLast(c: Codec, file: Option<string>, s: State, e: Event, torn: bool)
    requires Inv(c, file, s) && LastSettled(s, torn)
    ensures
      var tears := e.Fail? && PcOf(s, e.p).Replaced?;
      var renames := e.Replace? && ReadyToRename(PcOf(s, e.p));
      LastSettled(Step(c, s, e), tears || (!renames && torn))
  {
    assert Inside(PcOf(s, e.p)) <==> s.lock == Some(e.p);
    if s.lock.Some? {
      assert PcFits(c, s, PcOf(s, s.lock.value));
    }
  }

  lemma {:induction false} RunSettlesLast(c: Codec, file: Option<string>, run: seq<Event>, k: nat)
    requires k <= |run|
    ensures LastSettled(At(c, file, run, k), TornSince(c, file, run, k))
  {
    if k > 0 {
      RunSettlesLast(c, file, run, k - 1);
      RunKeepsInv(c, file, run, k - 1);
      StepSettlesLast(c, file, At(c, file, run, k - 1), run[k - 1], TornSince(c, file, run, k - 1));
    }
  }

  /** The digest of the file is the last audit entry. */
  ghost predicate FileMatchesAudit(c: Codec, s: State)
  {
    s.file.Some? && s.audit != [] && s.audit[|s.audit| - 1] == c.digest(s.file.value)
  }

  /** No rotation but the last wrote a text with the last one's digest. */
  ghost predicate LastDigestIsNew(c: Codec, log: seq<Entry>)
    requires log != []
  {
    forall i :: 0 <= i < |log| - 1 ==> c.digest(log[i].wrote) != c.digest(log[|log| - 1].wrote)
  }

  /** Whenever the lock is free after at least one rotation, the digest of the file is the last audit entry if the last
      rotation was not torn, however many before it were; and, unless digests collide, only if. */
  lemma FreeLockMatchesAudit(c: Codec, file: Option<string>, run: seq<Event>, k: nat)
    requires k <= |run| && At(c, file, run, k).lock.None? && At(c, file, run, k).log != []
    ensures !TornSince(c, file, run, k) ==> FileMatchesAudit(c, At(c, file, run, k))
    ensures
      LastDigestIsNew(c, At(c, file, run, k).log) ==>
        (FileMatchesAudit(c, At(c, file, run, k)) <==> !TornSince(c, file, run, k))
  {
    RunKeepsInv(c, file, run, k);
    RunSettlesLast(c, file, run, k);
    AuditedLastMatches(c, At(c, file, run, k).log);
  }

  /** The last audit entry is the last rotation's digest if that is audited, and else one of an earlier rotation. */
  lemma AuditedLastMatches(c: Codec, log: seq<Entry>)
    requires log != []
    ensures
      var audit, last := AuditOf(c, log), log[|log| - 1];
      && (last.audited ==> audit != [] && audit[|audit| - 1] == c.digest(last.wrote))
      && (LastDigestIsNew(c, log) && !last.audited ==> c.digest(last.wrote) !in audit)
  {
    AuditHoldsDigests(c, log[..|log| - 1]);
  }

  lemma {:induction false} AuditHoldsDigests(c: Codec, log: seq<Entry>)
    ensures forall d :: d in AuditOf(c, log) ==> exists i :: 0 <= i < |log| && c.digest(log[i].wrote) == d
  {
    if log != [] {
      var some, last := log[..|log| - 1], log[|log| - 1];
      AuditHoldsDigests(c, some);
      forall d | d in AuditOf(c, log)
        ensures exists i :: 0 <= i < |log| && c.digest(log[i].wrote) == d
      {
        if d in AuditOf(c, some) {
          var i :| 0 <= i < |some| && c.digest(some[i].wrote) == d;
          assert log[i] == some[i];
        } else {
          assert c.digest(log[|log| - 1].wrote) == d;
        }
      }
    }
  }

  /** The condition can fail: for any usable file, one process failing between rename and audit line leaves the lock
      free, the file replaced and no audit entry. */
  lemma TornRotationGoesUnaudited(c: Codec, text: string, access: string, refresh: string, at: string)
    requires c.parse(text).Doc?
    ensures
      var next := c.render(Rotated(c.parse(text), access, refresh, at));
      var run := [Begin(1), Acquire(1), ReadFile(1), Compute(1, access, refresh, at), WriteSome(1, |next|),
                  Replace(1), Fail(1), Unlock(1)];
      var s := At(c, Some(text), run, 8);
      s.lock.None? && s.file == Some(next) && |s.log| == 1 && s.audit == []
  {
    var next := c.render(Rotated(c.parse(text), access, refresh, at));
    var run := [Begin(1), Acquire(1), ReadFile(1), Compute(1, access, refresh, at), WriteSome(1, |next|),
                Replace(1), Fail(1), Unlock(1)];
    var s0 := Initial(Some(text));
    assert At(c, Some(text), run, 1) == s0.(procs := map[1 := Waiting]);
    assert At(c, Some(text), run, 2) == s0.(procs := map[1 := Locked], lock := Some(1));
    assert At(c, Some(text), run, 3) == s0.(procs := map[1 := HasRead(text)], lock := Some(1));
    assert At(c, Some(text), run, 4) == s0.(procs := map[1 := Writing(text, next, "")], lock := Some(1));
    assert next[..|next|] == next;
    assert At(c, Some(text), run, 5) == s0.(procs := map[1 := Writing(text, next, next)], lock := Some(1));
    var s6 := s0.(procs := map[1 := Replaced(text, next)], lock := Some(1), file := Some(next),
                  log := [Entry(text, next, false)]);
    assert At(c, Some(text), run, 6) == s6;
    assert At(c, Some(text), run, 7) == s6.(procs := map[1 := Leaving]);
    assert At(c, Some(text), run, 8) == s6.(procs := map[1 := Idle], lock := None);
  }

  /** How many rotations were torn in the first `k` steps. */
  ghost function TornCount(c: Codec, file: Option<string>, run: seq<Event>, k: nat): nat
    requires k <= |run|
  {
    if k == 0 then 0 else TornCount(c, file, run, k - 1) + if Tears(c, file, run, k - 1) then 1 else 0
  }

  ghost function Owed(s: State): nat
  {
    if Pending(s) then 1 else 0
  }

  lemma StepAccounts(c: Codec, file: Option<string>, s: State, e: Event)
    requires Inv(c, file, s)
    ensures
      var s' := Step(c, s, e);
      |s'.log| - |s'.audit| - Owed(s') ==
      |s.log| - |s.audit| - Owed(s) + if e.Fail? && PcOf(s, e.p).Replaced? then 1 else 0
  {
    assert Inside(PcOf(s, e.p)) <==> s.lock == Some(e.p);
    if s.lock.Some? {
      assert PcFits(c, s, PcOf(s, s.lock.value));
    }
  }

  /** Conservation: every rotation is on record in the audit, about to be, or torn. So with the lock free the audit is
      complete exactly when nothing was torn. */
  lemma {:induction false} MissingLinesAreTears(c: Codec, file: Option<string>, run: seq<Event>, k: nat)
    requires k <= |run|
    ensures
      var s := At(c, file, run, k);
      && |s.log| == |s.audit| + TornCount(c, file, run, k) + Owed(s)
      && (s.lock.None? ==> (|s.audit| == |s.log| <==> TornCount(c, file, run, k) == 0))
  {
    if k > 0 {
      MissingLinesAreTears(c, file, run, k - 1);
      RunKeepsInv(c, file, run, k - 1);
      StepAccounts(c, file, At(c, file, run, k - 1), run[k - 1]);
    }
  }

  /** Equal but for the rotated tokens and the refresh time. */
  ghost predicate SameAccount(d: Doc, e: Doc)
  {
    && d.Doc? && e.Doc?
    && d.tokens - {ACCESS, REFRESH} == e.tokens - {ACCESS, REFRESH}
    && d.fields - {LAST_REFRESH} == e.fields - {LAST_REFRESH}
  }

  lemma {:induction false} LogKeepsAccount(c: Codec, text: string, log: seq<Entry>, i: nat)
    requires Faithful(c) && Chained(c, Some(text), log) && i < |log|
    ensures SameAccount(c.parse(text), c.parse(log[i].wrote))
  {
    if i > 0 {
      LogKeepsAccount(c, text, log, i - 1);
      assert log[i].seen == log[i - 1].wrote;
    }
    assert Successor(c, log[i].seen, log[i].wrote);
    var access, refresh, at :|
      log[i].wrote == c.render(Rotated(c.parse(log[i].seen), access, refresh, at));
    assert SameAccount(c.parse(log[i].seen), Rotated(c.parse(log[i].seen), access, refresh, at));
  }

  /** However many processes rotate, nothing but the two tokens and the refresh time is ever lost or changed. */
  lemma AccountSurvives(c: Codec, text: string, run: seq<Event>, k: nat)
    requires Faithful(c) && k <= |run| && c.parse(text).Doc?
    ensures At(c, Some(text), run, k).file.Some?
    ensures SameAccount(c.parse(text), c.parse(At(c, Some(text), run, k).file.value))
  {
    RunKeepsInv(c, Some(text), run, k);
    StateKeepsAccount(c, text, At(c, Some(text), run, k));
  }

  lemma StateKeepsAccount(c: Codec, text: string, s: State)
    requires Faithful(c) && c.parse(text).Doc? && Inv(c, Some(text), s)
    ensures s.file.Some? && SameAccount(c.parse(text), c.parse(s.file.value))
  {
    if s.log != [] {
      LogKeepsAccount(c, text, s.log, |s.log| - 1);
    }
  }

  /** A rotation puts each new token under its own name, and the time, and leaves every other entry. */
  lemma RotationRenamesNothing(d: Doc, access: string, refresh: string, at: string)
    requires d.Doc?
    ensures
      var d' := Rotated(d, access, refresh, at);
      && d'.Doc? && SameAccount(d, d')
      && d'.tokens.Keys == d.tokens.Keys + {"access_token", "refresh_token"}
      && d'.tokens["access_token"] == Text(access) && d'.tokens["refresh_token"] == Text(refresh)
      && d'.fields.Keys == d.fields.Keys + {"last_refresh"} && d'.fields["last_refresh"] == Other(at)
      && AccountOf(d') == AccountOf(d)
      && forall a :: AccountOf(d) == Some(a) <==> "account_id" in d.tokens && d.tokens["account_id"] == Text(a)
  {
    assert ACCESS[0] != REFRESH[0] && ACCOUNT[2] != ACCESS[4] && |ACCOUNT| != |ACCESS| && |ACCOUNT| != |REFRESH|;
  }

  // ----- one rotation in place

  /** What a rotation under the lock leaves when nothing interrupts it. */
  function LockedRotation(c: Codec, file: Option<string>, audit: seq<string>, access: string, refresh: string,
                          at: string): (Option<string>, seq<string>)
  {
    if file.None? || c.parse(file.value).Unusable? then (file, audit)
    else
      var text := c.render(Rotated(c.parse(file.value), access, refresh, at));
      (Some(text), audit + [c.digest(text)])
  }

  class Credentials {
    var file: Option<string>
    var audit: seq<string>

    constructor (file: Option<string>)
      ensures this.file == file && audit == []
    {
      this.file, audit := file, [];
    }

    /** The body of the lock: read, replace the tokens in the document, write it over the file, append the audit line.
        The account answered is the one the file names, before and after. */
    method RotateLocked(c: Codec, access: string, refresh: string, at: string) returns (account: Option<string>)
      modifies this
      ensures (file, audit) == LockedRotation(c, old(file), old(audit), access, refresh, at)
      ensures account == if old(file).Some? then AccountOf(c.parse(old(file).value)) else None
      ensures Faithful(c) && file.Some? ==> account == AccountOf(c.parse(file.value))
    {
      if file.None? || c.parse(file.value).Unusable? {
        return None;
      }
      var data := c.parse(file.value);
      account := AccountOf(data);
      var tokens := data.tokens;
      tokens := tokens[ACCESS := Text(access)];
      tokens := tokens[REFRESH := Text(refresh)];
      data := data.(tokens := tokens);
      data := data.(fields := data.fields[LAST_REFRESH := Other(at)]);
      var written := WriteAtomic(c, data);
      audit := audit + [c.digest(written)];
    }

    /** Answers the exact text written. */
    method WriteAtomic(c: Codec, data: Doc) returns (text: string)
      modifies this`file
      ensures text == c.render(data) && file == Some(text)
    {
      text := c.render(data);
      var tmp := text;
      file := Some(tmp);
    }
  }

  /** A process's steps inside the lock, the temporary file written in one go. */
  function RotateSteps(c: Codec, s: State, p: int, access: string, refresh: string, at: string): seq<Event>
  {
    var length := if s.file.None? || c.parse(s.file.value).Unusable? then 0
                  else |c.render(Rotated(c.parse(s.file.value), access, refresh, at))|;
    [ReadFile(p), Compute(p, access, refresh, at), WriteSome(p, length), Replace(p), Append(p), Unlock(p)]
  }

  function Steps(c: Codec, s: State, events: seq<Event>): State
    decreases |events|
  {
    if events == [] then s else Steps(c, Step(c, s, events[0]), events[1..])
  }

  /** The interleaved steps of a process that holds the lock, taken in a row, do what the code under the lock does. */
  lemma StepsRotate(c: Codec, s: State, p: int, access: string, refresh: string, at: string)
    requires PcOf(s, p).Locked?
    ensures
      var s' := Steps(c, s, RotateSteps(c, s, p, access, refresh, at));
      && (s'.file, s'.audit) == LockedRotation(c, s.file, s.audit, access, refresh, at)
      && s'.lock.None? && PcOf(s', p).Idle?
  {
    var events := RotateSteps(c, s, p, access, refresh, at);
    var s1 := Step(c, s, events[0]);
    var s2 := Step(c, s1, events[1]);
    var s3 := Step(c, s2, events[2]);
    var s4 := Step(c, s3, events[3]);
    var s5 := Step(c, s4, events[4]);
    assert Steps(c, s, events) == Step(c, s5, events[5]) by {
      SixSteps(c, s, events);
    }
    if s.file.Some? && c.parse(s.file.value).Doc? {
      var text := c.render(Rotated(c.parse(s.file.value), access, refresh, at));
      assert text[..|text|] == text;
      assert PcOf(s3, p) == Writing(s.file.value, text, text);
      assert PcOf(s5, p).Leaving?;
    } else {
      assert PcOf(s5, p).Leaving?;
    }
  }

  lemma SixSteps(c: Codec, s: State, events: seq<Event>)
    requires |events| == 6
    ensures
      var s3 := Step(c, Step(c, Step(c, s, events[0]), events[1]), events[2]);
      Steps(c, s, events) == Step(c, Step(c, Step(c, s3, events[3]), events[4]), events[5])
  {
    var s3 := Step(c, Step(c, Step(c, s, events[0]), events[1]), events[2]);
    ThreeSteps(c, s, events);
    ThreeSteps(c, s3, events[3..]);
    assert events[3..][3..] == [];
  }

  lemma ThreeSteps(c: Codec, s: State, events: seq<Event>)
    requires |events| >= 3
    ensures Steps(c, s, events) == Steps(c, Step(c, Step(c, Step(c, s, events[0]), events[1]), events[2]), events[3..])
  {
    assert events[1..][1..] == events[2..] && events[2..][1..] == events[3..];
    assert events[1..][0] == events[1] && events[2..][0] == events[2];
  }
}
