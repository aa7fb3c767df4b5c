/** The in-memory store (internal/minioclient/fake.go) and the cursor table
  (internal/sqlitedb/db.go) behind the daemon: each call is a step of Ingest, or
  two, so what is proved of every run of Ingest holds of them. */
module StoreSteps {
  import opened Lines
  import opened Store
  import opened Ingest
  import Questions

  class Backend {
    const cfg: Config
    const fake: Fake
    const db: Questions.DB
    /** The state of Ingest these stand for. */
    var s: State

    /** Store and table hold what the state says. */
    ghost predicate Matches()
      reads this, fake, db
    {
      fake.objs == s.store && db.cursors == s.cursor
    }

    constructor (cfg: Config, format: int -> string)
      ensures Matches() && Init(s) && this.cfg == cfg && fresh(fake) && fresh(db)
    {
      this.cfg := cfg;
      fake := new Fake();
      db := new Questions.DB(format);
      s := State(map[], map[], [], {}, map[], map[], Idle);
    }

    /** A shipper's put. */
    method Put(key: string, body: string, md5Matches: bool, fail: bool) returns (ok: bool)
      requires Matches() && FreshKey(s, key) && HasHead(s)
      modifies this`s, fake
      ensures Matches() && ok == (md5Matches && !fail)
      ensures s == if ok then Step(cfg, old(s), Upload(key, body)) else old(s)
    {
      ok := fake.PutObject(key, body, md5Matches, fail);
      if ok {
        s := Step(cfg, s, Upload(key, body));
      }
    }

    /** What processMachine lists: the keys after the machine's cursor. */
    method List(m: string, fault: bool, fail: bool) returns (keys: Option<seq<string>>)
      requires Matches() && s.pc.Idle? && m != "" && '/' !in m
      modifies this`s
      ensures Matches() && (keys.None? <==> fault || fail)
      ensures keys.None? ==> s == old(s)
      ensures keys.Some? ==>
                Enabled(old(s), Action.List(m, keys.value)) && s == Step(cfg, old(s), Action.List(m, keys.value))
    {
      var cursor := db.GetCursor(m, fault);
      if cursor.None? {
        return None;
      }
      keys := fake.ListObjects(RawPrefix(m), cursor.value, fail);
      if keys.Some? {
        s := Step(cfg, s, Action.List(m, keys.value));
      }
    }

    /** A raw object still in the store has the bytes that were uploaded. */
    method Get(key: string, fail: bool) returns (body: Option<string>)
      requires Matches() && StoreOk(cfg, s) && key in s.uploads
      ensures body.Some? <==> !fail && key in s.store
      ensures body.Some? ==> body.value == s.uploads[key]
    {
      body := fake.GetObject(key, fail);
    }

    /** The move is the copy and the removal in one, or a copy that did not happen. */
    method Move(fail: bool) returns (ok: bool)
      requires Matches() && Inv(cfg, s) && s.pc.Copying?
      modifies this`s, fake
      ensures Matches() && ok == !fail
      ensures ok ==> && Enabled(old(s), CopyObject(true, true))
                     && Enabled(Step(cfg, old(s), CopyObject(true, true)), RemoveObject(true, true))
                     && s == Step(cfg, Step(cfg, old(s), CopyObject(true, true)), RemoveObject(true, true))
      ensures !ok ==> Enabled(old(s), CopyObject(false, false)) && s == Step(cfg, old(s), CopyObject(false, false))
    {
      var head := s.pc.keys[0];
      assert head in s.pc.keys;
      ok := fake.MoveObject(head, ArchiveKey(head), fail);
      if ok {
        s := Step(cfg, Step(cfg, s, CopyObject(true, true)), RemoveObject(true, true));
      } else {
        s := Step(cfg, s, CopyObject(false, false));
      }
    }

    method Advance(fault: bool) returns (ok: bool)
      requires Matches() && HasHead(s) && s.pc.Advancing?
      modifies this`s, db`cursors
      ensures Matches() && ok == !fault
      ensures Enabled(old(s), AdvanceCursor(ok, ok)) && s == Step(cfg, old(s), AdvanceCursor(ok, ok))
    {
      ok := db.UpsertCursor(s.pc.machine, s.pc.keys[0], fault);
      s := Step(cfg, s, AdvanceCursor(ok, ok));
    }
  }
}
