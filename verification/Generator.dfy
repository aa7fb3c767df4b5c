/** One generation cycle as imperative code (internal/generate/generate.go) over
  the cursor and the queue. Valid ties the database to a legal run of
  GenerationCursor and a legal run of QuestionQueue, so what those modules prove
  holds after every cycle and every failure inside one. */
module Generator {
  import opened Lines
  import opened Questions
  import C = GenerationCursor
  import Q = QuestionQueue
  import M = ModelOutput
  import W = Text

  datatype Candidate = Candidate(
    situation: string, question: string, optionA: string, optionB: string, principle: string,
    durability: int, obviousness: int, seedEventId: string, retrieved: seq<string>)

  /** The backend's answer: an error Run reports, one it swallows, or text. */
  datatype Reply = HardError | SoftError | Text(text: string)

  /** The statements that fail during one cycle; insert(i) is that of survivor i. */
  datatype Faults = Faults(read: bool, count: bool, insert: nat -> bool, update: bool)

  datatype Settings = Settings(maxReadyQueue: int, limit: nat, minDurability: int, maxObviousness: int)

  function Keep(cfg: Settings, c: Candidate): bool {
    c.durability >= cfg.minDurability && c.obviousness <= cfg.maxObviousness
  }

  function Survivors(cfg: Settings, cs: seq<Candidate>): seq<Candidate> {
    if cs == [] then []
    else Survivors(cfg, cs[..|cs| - 1]) + if Keep(cfg, cs[|cs| - 1]) then [cs[|cs| - 1]] else []
  }

  /** The displayed options and the slot that holds the path actually taken,
    which the model always emits as option_a. */
  function Shuffle(c: Candidate, flip: bool): (r: (string, string, string))
    ensures r.2 == "A" || r.2 == "B"
    ensures (if r.2 == "A" then r.0 else r.1) == c.optionA
    ensures (if r.2 == "A" then r.1 else r.0) == c.optionB
  {
    if flip then (c.optionB, c.optionA, "B") else (c.optionA, c.optionB, "A")
  }

  /** What the rows of one cycle share: its newest event, all its event ids, the time. */
  datatype Origin = Origin(newest: string, ids: seq<string>, now: int)

  /** A row holds this candidate, whichever way its options were shown, and
    whatever has become of its status since. */
  predicate Holds(row: Question, c: Candidate, o: Origin) {
    && row.situation == c.situation && row.question == c.question && row.principle == c.principle
    && row.durability == c.durability && row.obviousness == c.obviousness
    && row.projectId == "default" && row.generatedAt == o.now
    && row.seedEventId == (if c.seedEventId == "" then o.newest else c.seedEventId)
    && row.retrieved == (if c.retrieved == [] then o.ids else c.retrieved)
    && (row.actualOption == "A" || row.actualOption == "B")
    && (if row.actualOption == "A" then row.optionA else row.optionB) == c.optionA
    && (if row.actualOption == "A" then row.optionB else row.optionA) == c.optionB
  }

  /** New rows hold survivors, in order, some of which may be missing. */
  ghost predicate HoldsInOrder(rows: seq<Question>, was: nat, cs: seq<Candidate>, from: seq<nat>, o: Origin) {
    && |rows| == was + |from|
    && (forall i, j :: 0 <= i < j < |from| ==> from[i] < from[j])
    && (forall i :: 0 <= i < |from| ==> from[i] < |cs| && Holds(rows[was + i], cs[from[i]], o))
  }

  class Generator {
    const db: DB
    const table: C.Table
    const cfg: Settings
    ghost var cycles: seq<C.Cycle>
    ghost var conf: Q.Config
    ghost var queue: Q.State
    ghost var trace: seq<Q.Action>

    ghost predicate Valid() reads this`cycles, this`conf, this`queue, this`trace, db`genCursor, db`questions {
      CursorValid() && QueueValid()
    }

    ghost predicate CursorValid() reads this`cycles, db`genCursor {
      && db.genCursor.Some? && db.genCursor.value >= 0
      && C.RunOk(table, cfg.limit, cycles)
      && db.genCursor.value == (if cycles == [] then 0 else cycles[|cycles| - 1].after)
      && (cycles != [] ==> cycles[0].before == 0)
    }

    ghost predicate QueueValid() reads this`conf, this`queue, this`trace, db`questions {
      && conf.cap == Q.ResolveCap(cfg.maxReadyQueue)
      && Q.Leads(conf, Q.State([], 0, 0, 0, 0), trace, queue)
      && queue.rows == db.questions && TableOk(db.questions)
    }

    constructor (db: DB, table: C.Table, cfg: Settings)
      requires db.questions == [] && db.genCursor == Some(0)
      ensures Valid() && this.db == db && this.table == table && this.cfg == cfg
      ensures cycles == [] && trace == [] && queue.left == 0
    {
      this.db := db;
      this.table := table;
      this.cfg := cfg;
      cycles, trace := [], [];
      conf := Q.Config(Q.ResolveCap(cfg.maxReadyQueue), 0);
      queue := Q.State([], 0, 0, 0, 0);
    }

    /** What the queue theorems say of the database at any moment. */
    lemma Safe()
      requires Valid()
      ensures CountOf(db.questions, "ready")
              <= conf.cap - 1 + conf.b + conf.b * Q.Uncounted(trace)
                 + Q.Requeues(conf, Q.State([], 0, 0, 0, 0), trace, queue)
      ensures TableOk(db.questions)
    {
      Q.ReadyQueueBound(conf, Q.State([], 0, 0, 0, 0), trace, queue);
    }

    ghost method Do(a: Q.Action)
      requires Q.Leads(conf, Q.State([], 0, 0, 0, 0), trace, queue) && Q.Enabled(conf, queue, a)
      modifies this`queue, this`trace
      ensures Q.Leads(conf, Q.State([], 0, 0, 0, 0), trace, queue)
      ensures queue == Q.Step(conf, old(queue), a) && trace == old(trace) + [a]
    {
      var next := Q.Step(conf, queue, a);
      assert Q.Leads(conf, queue, [a], next);
      Q.LeadsJoin(conf, Q.State([], 0, 0, 0, 0), trace, queue, [a], next);
      queue, trace := next, trace + [a];
    }

    method OtherUpdate(id: nat, status: string, extras: map<string, Extra>, fault: bool)
      requires Valid()
      modifies this`queue, this`trace, db`questions
      ensures Valid() && queue.left == old(queue.left)
      ensures |db.questions| == |old(db.questions)| && Grown(old(db.questions), db.questions)
    {
      var r := db.UpdateQuestionStatus(id, status, extras, fault);
      if r.Done? {
        Do(Q.Update(id, status, Columns(db.format, extras)));
      }
    }

    /** The sender and the user change statuses while the generator waits. */
    method LetOthersUpdate()
      requires Valid()
      modifies this`queue, this`trace, db`questions
      ensures Valid() && queue.left == old(queue.left)
      ensures |db.questions| == |old(db.questions)| && Grown(old(db.questions), db.questions)
    {
      var n: int := *;
      while n > 0
        invariant Valid() && queue.left == old(queue.left)
        invariant |db.questions| == |old(db.questions)| && Grown(old(db.questions), db.questions)
      {
        var id: nat, status: string, extras: map<string, Extra>, fault: bool := *, *, *, *;
        ghost var was := db.questions;
        OtherUpdate(id, status, extras, fault);
        GrownTwice(old(db.questions), was, db.questions);
        n := n - 1;
      }
    }

    /** The newest captured_at of the rows, and the first row that has it. */
    method Newest(batch: seq<string>) returns (ms: int, id: string)
      requires db.genCursor.Some? && db.genCursor.value >= 0
      requires C.IsBatch(table, db.genCursor.value, cfg.limit, batch)
      ensures batch != [] ==> id in batch && ms == table[id] == table[C.Last(batch)] && ms > 1000 * ZERO_TIME
      ensures batch != [] ==> IsNewest(table, batch, id)
      ensures batch != [] ==>
                exists k :: 0 <= k < |batch| && batch[k] == id && forall j :: 0 <= j < k ==> table[batch[j]] < ms
    {
      ms, id := 1000 * ZERO_TIME, "";
      ghost var k := 0;
      var i := 0;
      while i < |batch|
        invariant 0 <= i <= |batch|
        invariant i > 0 ==> id in batch && ms == table[id] == table[batch[i - 1]] && ms > 1000 * ZERO_TIME
        invariant i == 0 ==> ms == 1000 * ZERO_TIME
        invariant i > 0 ==> 0 <= k < i && batch[k] == id && forall j :: 0 <= j < k ==> table[batch[j]] < ms
      {
        if table[batch[i]] > ms {
          ms, id := table[batch[i]], batch[i];
          k := i;
        }
        i := i + 1;
      }
    }

    method EventIds(batch: seq<string>) returns (ids: seq<string>)
      ensures ids == NonBlank(batch)
    {
      ids := [];
      var i := 0;
      while i < |batch|
        invariant 0 <= i <= |batch| && ids == NonBlank(batch[..i])
      {
        assert batch[..i + 1] == batch[..i] + [batch[i]];
        NonBlankConcat(batch[..i], [batch[i]]);
        if batch[i] != "" {
          ids := ids + [batch[i]];
        }
        i := i + 1;
      }
      assert batch[..i] == batch;
    }

    method Filter(cs: seq<Candidate>) returns (survivors: seq<Candidate>)
      ensures survivors == Survivors(cfg, cs)
    {
      survivors := [];
      var i := 0;
      while i < |cs|
        invariant 0 <= i <= |cs| && survivors == Survivors(cfg, cs[..i])
      {
        assert cs[..i + 1][..i] == cs[..i];
        if cs[i].durability >= cfg.minDurability && cs[i].obviousness <= cfg.maxObviousness {
          survivors := survivors + [cs[i]];
        }
        i := i + 1;
      }
      assert cs[..i] == cs;
    }

    /** One survivor as a row; a failed insert is logged and the cycle goes on. */
    method InsertOne(c: Candidate, flip: bool, o: Origin, fault: bool) returns (ok: bool)
      requires Valid() && queue.left > 0
      modifies this`queue, this`trace, db`questions
      ensures Valid() && queue.left == old(queue.left) - 1
      ensures ok == !fault && Appended(old(db.questions), db.questions, c, o, fault)
    {
      var seed := if c.seedEventId == "" then o.newest else c.seedEventId;
      var retrieved := if |c.retrieved| == 0 then o.ids else c.retrieved;
      var shown := Shuffle(c, flip);
      var q := Question(0, "default", seed, retrieved, c.situation, c.question, shown.0, shown.1, c.principle,
                        c.durability, c.obviousness, "", o.now, None, None, None, None, shown.2);
      var id := db.InsertQuestion(q, fault);
      ok := id.Some?;
      Do(Q.Insert(q, ok));
    }

    /** One turn of the loop over the survivors. */
    method InsertNext(ghost was: seq<Question>, cs: seq<Candidate>, i: nat, flip: bool, o: Origin, faults: Faults)
      requires Valid() && i < |cs| && queue.left == |cs| - i && Grown(was, db.questions)
      requires HoldsInOrder(db.questions, |was|, cs, Stored(faults, i), o)
      modifies this`queue, this`trace, db`questions
      ensures Valid() && queue.left == |cs| - i - 1 && Grown(was, db.questions)
      ensures HoldsInOrder(db.questions, |was|, cs, Stored(faults, i + 1), o)
    {
      LetOthersUpdate();
      StillHolds(old(db.questions), db.questions, |was|, cs, Stored(faults, i), o);
      ghost var mid := db.questions;
      GrownTwice(was, old(db.questions), mid);
      var ok := InsertOne(cs[i], flip, o, faults.insert(i));
      NextStored(mid, db.questions, |was|, cs, faults, i, o);
      GrownTwice(was, mid, db.questions);
    }

    method InsertSurvivors(cs: seq<Candidate>, flips: nat -> bool, o: Origin, faults: Faults)
      requires Valid() && queue.left == |cs|
      modifies this`queue, this`trace, db`questions
      ensures Valid() && queue.left == 0 && Grown(old(db.questions), db.questions)
      ensures HoldsInOrder(db.questions, |old(db.questions)|, cs, Stored(faults, |cs|), o)
    {
      var i := 0;
      while i < |cs|
        invariant 0 <= i <= |cs| && Valid() && queue.left == |cs| - i && Grown(old(db.questions), db.questions)
        invariant HoldsInOrder(db.questions, |old(db.questions)|, cs, Stored(faults, i), o)
      {
        InsertNext(old(db.questions), cs, i, flips(i), o, faults);
        i := i + 1;
      }
    }

    /** The candidates in a reply: the fenced text first, the recovered span if that fails. */
    method ParseCandidates(parse: string -> Option<seq<Candidate>>, valid: string -> bool, text: string)
      returns (cs: Option<seq<Candidate>>)
      ensures cs == Parsed(parse, valid, text)
    {
      var resultJson := M.StripMarkdownFence(text);
      cs := parse(resultJson);
      if cs.None? {
        var recovered := M.ExtractJsonArray(valid, text);
        if recovered != resultJson {
          cs := parse(recovered);
        }
      }
    }

    /** The last step of a cycle that got that far; its failure is only logged. */
    method AdvanceCursor(batch: seq<string>, ms: int, fault: bool)
      requires Valid() && queue.left == 0 && C.IsBatch(table, db.genCursor.value, cfg.limit, batch)
      requires batch != [] ==> ms == table[C.Last(batch)] && ms > 1000 * ZERO_TIME
      requires batch == [] ==> ms == 1000 * ZERO_TIME
      modifies this`cycles, db`genCursor
      ensures Valid() && |cycles| == |old(cycles)| + 1 && old(cycles) <= cycles && cycles[|old(cycles)|].batch == batch
      ensures db.genCursor == if batch == [] || fault then old(db.genCursor) else Some(ms / 1000)
    {
      ghost var before := db.genCursor.value;
      var updated := false;
      if ms != 1000 * ZERO_TIME {
        updated := db.UpdateQuestionGenCursor(ms, fault);
      }
      ghost var c := C.Cycle(before, batch, updated, db.genCursor.value);
      Record(c);
    }

    /** One more cycle in the history. */
    ghost method Record(c: C.Cycle)
      requires QueueValid() && C.CycleOk(table, cfg.limit, c) && C.RunOk(table, cfg.limit, cycles)
      requires c.before >= 0 && c.before == (if cycles == [] then 0 else cycles[|cycles| - 1].after)
      requires cycles != [] ==> cycles[0].before == 0
      requires db.genCursor == Some(c.after)
      modifies this`cycles
      ensures Valid() && cycles == old(cycles) + [c]
    {
      C.CycleNeverDecreases(table, cfg.limit, c);
      C.OneMoreCycle(table, cfg.limit, cycles, c);
      cycles := cycles + [c];
    }
    /** The cycle is past backpressure and may insert n survivors. */
    ghost method Open(n: nat, counted: bool)
      requires Valid() && queue.left == 0 && (counted ==> Q.ReadyCount(queue) < conf.cap)
      modifies this`conf, this`queue, this`trace
      ensures Valid() && queue.left == n && queue.rows == old(queue.rows)
      ensures conf.b == if n > old(conf.b) then n else old(conf.b)
    {
      var wider := Q.Config(conf.cap, if n > conf.b then n else conf.b);
      Q.LeadsWider(conf, wider, Q.State([], 0, 0, 0, 0), trace, queue);
      conf := wider;
      Do(if counted then Q.Begin(n) else Q.BeginUncounted(n));
    }

    /** From the backend's reply to the last insert. */
    method Answer(batch: seq<string>, newest: string, now: int, reply: Reply,
                  parse: string -> Option<seq<Candidate>>, valid: string -> bool, flips: nat -> bool, faults: Faults)
      returns (inserted: bool)
      requires Valid()
      requires ParsedReply(parse, valid, reply).Some? ==>
                 queue.left == |Survivors(cfg, ParsedReply(parse, valid, reply).value)|
      modifies this`queue, this`trace, db`questions
      ensures Valid() && queue.left == 0 && (inserted <==> ParsedReply(parse, valid, reply).Some?)
      ensures Added(cfg, old(db.questions), db.questions, ParsedReply(parse, valid, reply), faults,
                    Origin(newest, NonBlank(batch), now))
    {
      if !reply.Text? {
        Do(Q.Finish);
        return false;
      }
      var candidates := ParseCandidates(parse, valid, reply.text);
      if candidates.None? {
        Do(Q.Finish);
        return false;
      }
      var survivors := Filter(candidates.value);
      var ids := EventIds(batch);
      InsertSurvivors(survivors, flips, Origin(newest, ids, now), faults);
      inserted := true;
    }

    /** The part of a cycle that backpressure would have skipped. */
    method Generate(ghost counted: bool, batch: seq<string>, newest: string, now: int, reply: Reply,
                    parse: string -> Option<seq<Candidate>>, valid: string -> bool, flips: nat -> bool, faults: Faults)
      returns (inserted: bool)
      requires Valid() && queue.left == 0 && (counted ==> Q.ReadyCount(queue) < conf.cap)
      modifies this`conf, this`queue, this`trace, db`questions
      ensures Valid() && queue.left == 0 && (inserted <==> ParsedReply(parse, valid, reply).Some?)
      ensures Added(cfg, old(db.questions), db.questions, ParsedReply(parse, valid, reply), faults,
                    Origin(newest, NonBlank(batch), now))
    {
      ghost var expected := ParsedReply(parse, valid, reply);
      Open(if expected.Some? then |Survivors(cfg, expected.value)| else 0, counted);
      LetOthersUpdate();
      ghost var was := db.questions;
      inserted := Answer(batch, newest, now, reply, parse, valid, flips, faults);
      GrownTwice(old(db.questions), was, db.questions);
    }

    /** A count that fails lets the cycle proceed. */
    method QueueIsFull(fault: bool) returns (full: bool)
      requires QueueValid()
      ensures full <==> !fault && CountOf(db.questions, "ready") >= Q.ResolveCap(cfg.maxReadyQueue)
      ensures full || fault || Q.ReadyCount(queue) < conf.cap
    {
      var maxReadyQueue := if cfg.maxReadyQueue <= 0 then 40 else cfg.maxReadyQueue;
      var counted, ready, answered := db.GetStats(fault);
      full := counted && ready >= maxReadyQueue;
    }

    /** The cycle once the query has returned rows; `full` says that backpressure
      skipped the generation. */
    method Work(batch: seq<string>, now: int, reply: Reply,
                parse: string -> Option<seq<Candidate>>, valid: string -> bool, flips: nat -> bool, faults: Faults)
      returns (full: bool, ghost newest: string)
      requires Valid() && queue.left == 0 && batch != []
      requires C.IsBatch(table, db.genCursor.value, cfg.limit, batch)
      modifies this`cycles, this`conf, this`queue, this`trace, db`questions, db`genCursor
      ensures Valid() && queue.left == 0 && IsNewest(table, batch, newest)
      ensures full <==> !faults.count && CountOf(old(db.questions), "ready") >= Q.ResolveCap(cfg.maxReadyQueue)
      ensures if full then db.questions == old(db.questions)
              else Added(cfg, old(db.questions), db.questions, ParsedReply(parse, valid, reply), faults,
                         Origin(newest, NonBlank(batch), now))
      ensures OneCycle(old(cycles), cycles, batch)
      ensures db.genCursor == if (full || ParsedReply(parse, valid, reply).Some?) && !faults.update
                              then Some(table[newest] / 1000) else old(db.genCursor)
    {
      var ms, id := Newest(batch);
      newest := id;
      full := QueueIsFull(faults.count);
      var proceed := full;
      if !full {
        proceed := Generate(!faults.count, batch, id, now, reply, parse, valid, flips, faults);
      }
      if proceed {
        AdvanceCursor(batch, ms, faults.update);
      }
    }

    /** One cycle. The query's rows, the backend's reply and the coins are inputs. */
    method Run(queryOk: bool, batch: seq<string>, now: int, reply: Reply,
               parse: string -> Option<seq<Candidate>>, valid: string -> bool, flips: nat -> bool, faults: Faults)
      returns (ok: bool, full: bool, ghost newest: string)
      requires Valid() && queue.left == 0
      requires queryOk ==> C.IsBatch(table, db.genCursor.value, cfg.limit, batch)
      modifies this`cycles, this`conf, this`queue, this`trace, db`questions, db`genCursor
      ensures Valid() && queue.left == 0 && OneCycle(old(cycles), cycles, batch)
      ensures full <==> !faults.read && queryOk && batch != [] && !faults.count
                        && CountOf(old(db.questions), "ready")
                           >= (if cfg.maxReadyQueue > 0 then cfg.maxReadyQueue else 40)
      ensures ok <==> !faults.read && queryOk && (batch == [] || full || !reply.HardError?)
      // New questions are the parsed survivors, in order; the others keep their content.
      ensures Added(cfg, old(db.questions), db.questions,
                    if ok && !full && batch != [] then ParsedReply(parse, valid, reply) else None,
                    faults, Origin(newest, NonBlank(batch), now))
      // Which candidates those are, and what becomes of each.
      ensures var cs := if ok && !full && batch != [] then ParsedReply(parse, valid, reply) else None;
              cs.Some? ==> RowsOfPassing(cfg, old(db.questions), db.questions, cs.value, faults,
                                         Origin(newest, NonBlank(batch), now))
      // The cursor moves exactly when the cycle was full or its reply was parsed.
      ensures ok && batch != [] ==> IsNewest(table, batch, newest)
      ensures db.genCursor == if ok && batch != [] && (full || ParsedReply(parse, valid, reply).Some?) && !faults.update
                              then Some(table[newest] / 1000) else old(db.genCursor)
    {
      ok, full, newest := true, false, "";
      var cursor := db.GetQuestionGenCursor(faults.read);
      if cursor.None? || !queryOk {
        ok := false;
        return;
      }
      if |batch| > 0 {
        full, newest := Work(batch, now, reply, parse, valid, flips, faults);
        ok := full || !reply.HardError?;
        ghost var cs := ParsedReply(parse, valid, reply);
        if ok && !full && cs.Some? {
          AddedIsRowsOfPassing(cfg, old(db.questions), db.questions, cs.value, faults,
                               Origin(newest, NonBlank(batch), now));
        }
      }
    }
  }
  /** At most one cycle more, over these rows. */
  ghost predicate OneCycle(a: seq<C.Cycle>, b: seq<C.Cycle>, batch: seq<string>) {
    a == b || (|b| == |a| + 1 && a <= b && b[|a|].batch == batch)
  }

  /** The row whose timestamp the cursor takes. */
  ghost predicate IsNewest(t: C.Table, batch: seq<string>, e: string) {
    e in batch && e in t && forall x :: x in batch && x in t ==> t[x] <= t[e]
  }

  /** What one cycle does to the questions. */
  ghost predicate Added(cfg: Settings, a: seq<Question>, b: seq<Question>, cs: Option<seq<Candidate>>, faults: Faults,
                        o: Origin)
  {
    && Grown(a, b)
    && if cs.None? then |b| == |a|
       else
         var survivors := Survivors(cfg, cs.value);
         HoldsInOrder(b, |a|, survivors, Stored(faults, |survivors|), o)
  }

  // ----- which candidates become rows -----

  /** Durable enough and not too obvious. */
  predicate Passes(cfg: Settings, c: Candidate) {
    cfg.minDurability <= c.durability && c.obviousness <= cfg.maxObviousness
  }

  /** How many candidates before the j-th pass: the number of its insert. */
  function PassingBefore(cfg: Settings, cs: seq<Candidate>, j: nat): nat
    requires j <= |cs|
  {
    if j == 0 then 0 else PassingBefore(cfg, cs, j - 1) + if Passes(cfg, cs[j - 1]) then 1 else 0
  }

  /** from lists, in order and each once, the candidates that pass and whose insert works. */
  ghost predicate Chosen(cfg: Settings, cs: seq<Candidate>, faults: Faults, from: seq<nat>) {
    && (forall i, j :: 0 <= i < j < |from| ==> from[i] < from[j])
    && (forall j :: j in from <==>
          0 <= j < |cs| && cs[j].durability >= cfg.minDurability && cs[j].obviousness <= cfg.maxObviousness
          && !faults.insert(PassingBefore(cfg, cs, j)))
  }

  /** The content of a row, column by column: the candidate's own, its options in
    either order with the slot of the first one recorded, and what all rows of a
    cycle share. */
  predicate RowSays(row: Question, c: Candidate, o: Origin) {
    && row.projectId == "default" && row.generatedAt == o.now
    && row.situation == c.situation && row.question == c.question && row.principle == c.principle
    && row.durability == c.durability && row.obviousness == c.obviousness
    && row.seedEventId == (if |c.seedEventId| > 0 then c.seedEventId else o.newest)
    && row.retrieved == (if |c.retrieved| > 0 then c.retrieved else o.ids)
    && ((row.optionA == c.optionA && row.optionB == c.optionB && row.actualOption == "A")
        || (row.optionA == c.optionB && row.optionB == c.optionA && row.actualOption == "B"))
  }

  /** Of the parsed candidates exactly those are added, one row each, in order. */
  ghost predicate RowsOfPassing(cfg: Settings, a: seq<Question>, b: seq<Question>, cs: seq<Candidate>, faults: Faults,
                                o: Origin)
  {
    && Grown(a, b)
    && exists from ::
         && Chosen(cfg, cs, faults, from) && |b| == |a| + |from|
         && forall i :: 0 <= i < |from| ==> from[i] < |cs| && RowSays(b[|a| + i], cs[from[i]], o)
  }

  /** The survivors are the candidates that pass, in order, each with its number. */
  lemma {:induction false} SurvivorsPass(cfg: Settings, cs: seq<Candidate>) returns (at: seq<nat>)
    ensures |at| == |Survivors(cfg, cs)| == PassingBefore(cfg, cs, |cs|)
    ensures forall i, j :: 0 <= i < j < |at| ==> at[i] < at[j]
    ensures forall i :: 0 <= i < |at| ==>
              at[i] < |cs| && Survivors(cfg, cs)[i] == cs[at[i]] && PassingBefore(cfg, cs, at[i]) == i
    ensures forall j :: j in at <==>
              0 <= j < |cs| && cs[j].durability >= cfg.minDurability && cs[j].obviousness <= cfg.maxObviousness
  {
    at := [];
    if cs != [] {
      var n, p := |cs| - 1, cs[..|cs| - 1];
      var before := SurvivorsPass(cfg, p);
      PrefixNumbers(cfg, cs);
      at := before;
      if Passes(cfg, cs[n]) {
        at := before + [n];
      }
      forall i | 0 <= i < |at|
        ensures at[i] < |cs| && Survivors(cfg, cs)[i] == cs[at[i]] && PassingBefore(cfg, cs, at[i]) == i
      {
        if i < |before| {
          assert at[i] == before[i] && cs[at[i]] == p[at[i]];
        }
      }
      forall j ensures j in at <==>
          0 <= j < |cs| && cs[j].durability >= cfg.minDurability && cs[j].obviousness <= cfg.maxObviousness
      {
        assert j in at <==> j in before || (j == n && Passes(cfg, cs[n]));
        assert 0 <= j < n ==> p[j] == cs[j];
      }
    }
  }

  lemma {:induction false} PrefixNumbers(cfg: Settings, cs: seq<Candidate>)
    requires cs != []
    ensures forall j :: 0 <= j < |cs| ==> PassingBefore(cfg, cs, j) == PassingBefore(cfg, cs[..|cs| - 1], j)
  {
    forall j: nat | j < |cs| ensures PassingBefore(cfg, cs, j) == PassingBefore(cfg, cs[..|cs| - 1], j) {
      SameNumbers(cfg, cs, j);
    }
  }

  lemma {:induction false} SameNumbers(cfg: Settings, cs: seq<Candidate>, j: nat)
    requires j < |cs|
    ensures PassingBefore(cfg, cs, j) == PassingBefore(cfg, cs[..|cs| - 1], j)
  {
    if j > 0 {
      SameNumbers(cfg, cs, j - 1);
    }
  }

  lemma {:induction false} HoldingSays(row: Question, c: Candidate, o: Origin)
    requires Holds(row, c, o)
    ensures RowSays(row, c, o)
  {
  }

  lemma {:induction false} AddedIsRowsOfPassing(cfg: Settings, a: seq<Question>, b: seq<Question>, cs: seq<Candidate>,
                                                faults: Faults, o: Origin)
    requires Added(cfg, a, b, Some(cs), faults, o)
    ensures RowsOfPassing(cfg, a, b, cs, faults, o)
  {
    var at := SurvivorsPass(cfg, cs);
    var stored := Stored(faults, |at|);
    var from := seq(|stored|, i requires 0 <= i < |stored| => at[stored[i]]);
    forall i | 0 <= i < |from| ensures from[i] < |cs| && RowSays(b[|a| + i], cs[from[i]], o) {
      assert Survivors(cfg, cs)[stored[i]] == cs[at[stored[i]]];
      HoldingSays(b[|a| + i], cs[from[i]], o);
    }
    ChosenAre(cfg, cs, faults, at, stored, from);
  }

  lemma {:induction false} ChosenAre(cfg: Settings, cs: seq<Candidate>, faults: Faults, at: seq<nat>, stored: seq<nat>,
                                     from: seq<nat>)
    requires forall i :: 0 <= i < |at| ==> at[i] < |cs| && PassingBefore(cfg, cs, at[i]) == i
    requires forall i, j :: 0 <= i < j < |at| ==> at[i] < at[j]
    requires forall j :: j in at <==>
               0 <= j < |cs| && cs[j].durability >= cfg.minDurability && cs[j].obviousness <= cfg.maxObviousness
    requires forall i, j :: 0 <= i < j < |stored| ==> stored[i] < stored[j]
    requires forall i :: i in stored <==> 0 <= i < |at| && !faults.insert(i)
    requires |from| == |stored| && forall i :: 0 <= i < |from| ==> stored[i] < |at| && from[i] == at[stored[i]]
    ensures Chosen(cfg, cs, faults, from)
  {
    forall j | j in from
      ensures 0 <= j < |cs| && cs[j].durability >= cfg.minDurability && cs[j].obviousness <= cfg.maxObviousness
      ensures !faults.insert(PassingBefore(cfg, cs, j))
    {
      var i :| 0 <= i < |from| && from[i] == j;
      assert stored[i] in stored && at[stored[i]] in at;
    }
    forall j | 0 <= j < |cs| && cs[j].durability >= cfg.minDurability && cs[j].obviousness <= cfg.maxObviousness
               && !faults.insert(PassingBefore(cfg, cs, j))
      ensures j in from
    {
      assert j in at;
      var n :| 0 <= n < |at| && at[n] == j;
      assert n in stored;
      var i :| 0 <= i < |stored| && stored[i] == n;
      assert from[i] == j;
    }
  }

  /** Questions are only added, and keep their content. */
  ghost predicate Grown(a: seq<Question>, b: seq<Question>) {
    |a| <= |b| && forall i :: 0 <= i < |a| ==> Content(a[i]) == Content(b[i])
  }

  lemma GrownTwice(a: seq<Question>, b: seq<Question>, c: seq<Question>)
    requires Grown(a, b) && Grown(b, c)
    ensures Grown(a, c)
  {
    forall i | 0 <= i < |a| ensures Content(a[i]) == Content(c[i]) {
      assert Content(b[i]) == Content(c[i]);
    }
  }

  function ParsedReply(parse: string -> Option<seq<Candidate>>, valid: string -> bool,
                       reply: Reply): Option<seq<Candidate>> {
    if reply.Text? then Parsed(parse, valid, reply.text) else None
  }

  function Parsed(parse: string -> Option<seq<Candidate>>, valid: string -> bool,
                  text: string): Option<seq<Candidate>> {
    var plain := M.StripMarkdownFence(text);
    var recovered := M.Recovered(valid, text);
    if parse(plain).Some? || recovered == plain then parse(plain) else parse(recovered)
  }

  /** Only a reply that is text has candidates: those of the text without its
    fence, and if that does not parse, those of what is recovered from it. */
  lemma {:induction false} ReplySays(parse: string -> Option<seq<Candidate>>, valid: string -> bool, reply: Reply)
    ensures ParsedReply(parse, valid, reply).Some? ==> reply.Text?
    ensures reply.Text? ==>
              ParsedReply(parse, valid, reply)
              == match parse(M.StripMarkdownFence(reply.text))
                 case Some(cs) => Some(cs)
                 case None => parse(M.Recovered(valid, reply.text))
  {
  }

  /** The candidates a reply spells out are read, whatever blanks and fence are around them. */
  lemma {:induction false} CandidatesAreRead(parse: string -> Option<seq<Candidate>>, valid: string -> bool,
                                             before: string, pre: string, arr: string, post: string, after: string)
    requires W.AllBlank(before) && W.AllBlank(pre) && W.AllBlank(post) && W.AllBlank(after)
    requires |arr| >= 2 && arr[0] == '[' && arr[|arr| - 1] == ']' && parse(arr).Some?
    ensures var json, plain := M.Fenced("```json", pre, arr, post), M.Fenced("```", pre, arr, post);
            && ParsedReply(parse, valid, Reply.Text(before + json + after)) == parse(arr)
            && ParsedReply(parse, valid, Reply.Text(before + plain + after)) == parse(arr)
            && ParsedReply(parse, valid, Reply.Text(before + arr + after)) == parse(arr)
  {
    assert arr[0] != "```"[0] && arr[0] != "json"[0];
    M.FenceRoundTrip(before, pre, arr, post, after);
    ReplySays(parse, valid, Reply.Text(before + M.Fenced("```json", pre, arr, post) + after));
    ReplySays(parse, valid, Reply.Text(before + M.Fenced("```", pre, arr, post) + after));
    ReplySays(parse, valid, Reply.Text(before + arr + after));
  }

  /** So are those of an array between sentences that do not parse with it. */
  lemma {:induction false} CandidatesAmongProse(parse: string -> Option<seq<Candidate>>, valid: string -> bool,
                                                prose: string, arr: string, tail: string)
    requires W.Tight(prose + (arr + tail)) && !("```" <= prose + (arr + tail))
    requires parse(prose + (arr + tail)).None? && !valid(prose + (arr + tail))
    requires |arr| >= 2 && arr[0] == '[' && arr[|arr| - 1] == ']' && valid(arr) && ']' !in tail
    requires forall i :: 0 <= i < |prose| && prose[i] == '[' ==> !valid(prose[i..] + arr)
    ensures ParsedReply(parse, valid, Reply.Text(prose + (arr + tail))) == parse(arr)
  {
    var text := prose + (arr + tail);
    M.ArrayBetweenProse(valid, prose, arr, tail);
    M.NoFence(text);
    ReplySays(parse, valid, Reply.Text(text));
  }

  /** The survivors whose insert succeeds. */
  function Stored(faults: Faults, n: nat): (r: seq<nat>)
    ensures forall i :: 0 <= i < |r| ==> r[i] < n
    ensures forall i :: i in r <==> 0 <= i < n && !faults.insert(i)
  {
    if n == 0 then []
    else Stored(faults, n - 1) + if faults.insert(n - 1) then [] else [n - 1]
  }

  /** Everything but the columns a status update may set. */
  function Content(q: Question): Question {
    q.(status := "", sentAt := None, answeredAt := None, messageId := None, answerEventId := None)
  }

  lemma StillHolds(a: seq<Question>, b: seq<Question>, was: nat, cs: seq<Candidate>, from: seq<nat>, o: Origin)
    requires |a| == |b| && Grown(a, b) && HoldsInOrder(a, was, cs, from, o)
    ensures HoldsInOrder(b, was, cs, from, o)
  {
    forall i | 0 <= i < |from| ensures Holds(b[was + i], cs[from[i]], o) {
      assert Content(a[was + i]) == Content(b[was + i]);
      SameHolds(a[was + i], b[was + i], cs[from[i]], o);
    }
  }

  lemma SameHolds(p: Question, q: Question, c: Candidate, o: Origin)
    requires Content(p) == Content(q) && Holds(p, c, o)
    ensures Holds(q, c, o)
  {
    var x, y := Content(p), Content(q);
    assert x.optionA == y.optionA && x.actualOption == y.actualOption && x.retrieved == y.retrieved;
  }

  /** One insert, if it succeeds, adds one row at the end. */
  predicate Appended(a: seq<Question>, b: seq<Question>, c: Candidate, o: Origin, fault: bool) {
    if fault then b == a else |b| == |a| + 1 && a <= b && Holds(b[|a|], c, o)
  }

  lemma OneMoreHolds(a: seq<Question>, b: seq<Question>, was: nat, cs: seq<Candidate>, from: seq<nat>, last: nat,
                     o: Origin)
    requires HoldsInOrder(a, was, cs, from, o)
    requires (forall j :: 0 <= j < |from| ==> from[j] < last) && last < |cs|
    requires |b| == |a| + 1 && a <= b && Holds(b[|a|], cs[last], o)
    ensures HoldsInOrder(b, was, cs, from + [last], o)
  {
    var next := from + [last];
    forall i | 0 <= i < |next| ensures next[i] < |cs| && Holds(b[was + i], cs[next[i]], o) {
      if i < |from| {
        assert next[i] == from[i] && b[was + i] == a[was + i];
      } else {
        assert was + i == |a|;
      }
    }
  }

  lemma NextStored(a: seq<Question>, b: seq<Question>, was: nat, cs: seq<Candidate>, faults: Faults, i: nat,
                   o: Origin)
    requires HoldsInOrder(a, was, cs, Stored(faults, i), o) && i < |cs|
    requires Appended(a, b, cs[i], o, faults.insert(i))
    ensures HoldsInOrder(b, was, cs, Stored(faults, i + 1), o) && Grown(a, b)
  {
    if faults.insert(i) {
      assert Stored(faults, i + 1) == Stored(faults, i);
    } else {
      OneMoreHolds(a, b, was, cs, Stored(faults, i), i, o);
    }
  }
}
