/** From an agent's append to a row: the client of CaptureFile and the server of
  Ingest run side by side, and each object the client stores is an upload to the server. */
module Pipeline {
  import opened Lines
  import opened Store
  import opened Parts
  import C = CaptureFile
  import S = Shipping
  import I = Ingest
  import IngestSafety
  import Stranding

  /** keys[n] is the key that w.uploads[n] was stored under. */
  datatype System = System(w: C.World, z: I.State, keys: seq<string>)

  /** A client step that stores nothing; a put that arrives, acknowledged or not; or
    a server step, uploads of other machines among them. */
  datatype Action =
    | Client(a: C.Action)
    | Put(ok: bool, key: string)
    | Server(b: I.Action)

  predicate Enabled(c: C.Config, s: System, a: Action) {
    match a
    case Client(x) => |s.w.threads| == |c.proc| && C.Enabled(c, s.w, x) && !(x.DoPut? && x.stored)
    case Put(ok, key) =>
      && |s.w.threads| == |c.proc| && C.Enabled(c, s.w, C.DoPut(true, ok))
      && I.Enabled(s.z, I.Upload(key, s.w.ship.up.bytes))
    case Server(b) => I.Enabled(s.z, b)
  }

  function Step(c: C.Config, cfg: I.Config, s: System, a: Action): System
    requires Enabled(c, s, a)
  {
    match a
    case Client(x) => s.(w := C.Step(c, s.w, x))
    case Put(ok, key) =>
      System(C.Step(c, s.w, C.DoPut(true, ok)), I.Step(cfg, s.z, I.Upload(key, s.w.ship.up.bytes)), s.keys + [key])
    case Server(b) => s.(z := I.Step(cfg, s.z, b))
  }

  predicate Init(c: C.Config, s: System) {
    C.Init(c, s.w) && I.Init(s.z) && s.keys == []
  }

  predicate Leads(c: C.Config, cfg: I.Config, s: System, acts: seq<Action>, t: System)
    decreases |acts|
  {
    if acts == [] then s == t
    else Enabled(c, s, acts[0]) && Leads(c, cfg, Step(c, cfg, s, acts[0]), acts[1..], t)
  }

  // ----- what every run keeps -----

  /** Each stored object was uploaded as it is. */
  predicate KeysOk(s: System) {
    && |s.keys| == |s.w.uploads|
    && forall n :: 0 <= n < |s.keys| ==> s.keys[n] in s.z.uploads && s.z.uploads[s.keys[n]] == s.w.uploads[n].bytes
  }

  ghost predicate Sound(c: C.Config, cfg: I.Config, s: System) {
    C.Reachable(c, s.w) && I.Reachable(cfg, s.z) && KeysOk(s)
  }

  lemma {:induction false} ClientGoesOn(c: C.Config, w: C.World, a: C.Action)
    requires C.Reachable(c, w) && |w.threads| == |c.proc| && C.Enabled(c, w, a)
    ensures C.Reachable(c, C.Step(c, w, a))
  {
    var w0, acts :| C.Init(c, w0) && C.Leads(c, w0, acts, w);
    S.LeadsOneMore(c, w0, acts, w, a);
  }

  lemma {:induction false} ServerGoesOn(cfg: I.Config, z: I.State, b: I.Action)
    requires I.Reachable(cfg, z) && I.Enabled(z, b)
    ensures I.Reachable(cfg, I.Step(cfg, z, b))
  {
    var z0, acts :| I.Init(z0) && I.Leads(cfg, z0, acts, z);
    assert I.Leads(cfg, z, [b], I.Step(cfg, z, b));
    Stranding.LeadsJoin(cfg, z0, acts, z, [b], I.Step(cfg, z, b));
  }

  lemma OthersStoreNothing(c: C.Config, w: C.World, a: C.Action)
    requires |w.threads| == |c.proc| && C.Enabled(c, w, a) && !(a.DoPut? && a.stored)
    ensures C.Step(c, w, a).uploads == w.uploads
  {}

  lemma {:induction false} StepKeepsSound(c: C.Config, cfg: I.Config, s: System, a: Action)
    requires Sound(c, cfg, s) && Enabled(c, s, a)
    ensures Sound(c, cfg, Step(c, cfg, s, a))
  {
    match a
    case Client(x) =>
      ClientGoesOn(c, s.w, x);
      OthersStoreNothing(c, s.w, x);
    case Put(ok, key) =>
      ClientGoesOn(c, s.w, C.DoPut(true, ok));
      ServerGoesOn(cfg, s.z, I.Upload(key, s.w.ship.up.bytes));
    case Server(b) =>
      ServerGoesOn(cfg, s.z, b);
      IngestSafety.HistoryGrows(cfg, s.z, b);
  }

  /** Neither side is held back by the other: a put that arrives is a step under any
    fresh key, whether or not it is acknowledged, and so is all else either may do. */
  lemma {:induction false} EitherSideMoves(c: C.Config, cfg: I.Config, s: System, x: C.Action, key: string, b: I.Action)
    requires |s.w.threads| == |c.proc|
    ensures C.Enabled(c, s.w, x) && !(x.DoPut? && x.stored) ==>
              Enabled(c, s, Client(x)) && Step(c, cfg, s, Client(x)) == System(C.Step(c, s.w, x), s.z, s.keys)
    ensures C.Enabled(c, s.w, x) && x.DoPut? && x.stored && I.Enabled(s.z, I.Upload(key, s.w.ship.up.bytes)) ==>
              && Enabled(c, s, Put(x.ok, key))
              && Step(c, cfg, s, Put(x.ok, key))
                 == System(C.Step(c, s.w, x), I.Step(cfg, s.z, I.Upload(key, s.w.ship.up.bytes)), s.keys + [key])
    ensures I.Enabled(s.z, b) ==>
              Enabled(c, s, Server(b)) && Step(c, cfg, s, Server(b)) == System(s.w, I.Step(cfg, s.z, b), s.keys)
  {
  }

  lemma {:induction false} InitIsSound(c: C.Config, cfg: I.Config, s: System)
    requires Init(c, s)
    ensures Sound(c, cfg, s)
  {
    assert C.Leads(c, s.w, [], s.w);
    assert I.Leads(cfg, s.z, [], s.z);
  }

  lemma {:induction false} RunKeepsSound(c: C.Config, cfg: I.Config, s: System, acts: seq<Action>, t: System)
    requires Sound(c, cfg, s) && Leads(c, cfg, s, acts, t)
    ensures Sound(c, cfg, t)
    decreases |acts|
  {
    if acts != [] {
      StepKeepsSound(c, cfg, s, acts[0]);
      RunKeepsSound(c, cfg, Step(c, cfg, s, acts[0]), acts[1..], t);
    }
  }

  // ----- where a finished append is -----

  /** The object under key k is archived, its j-th record is the event, and the
    verdict of that record fits it, with its row in the table if it was inserted. */
  predicate AccountedAt(cfg: I.Config, z: I.State, k: string, j: nat, ev: string) {
    var x := ArchiveKey(k);
    && x in z.store && x in z.accounts && |z.accounts[x].vs| == |Records(z.store[x])|
    && ReadBackAt(z.store[x], j, ev)
    && I.Fits(cfg, ev, z.accounts[x].vs[j]) && (z.accounts[x].vs[j].Inserted? ==> z.accounts[x].vs[j].row in z.rows)
  }

  /** An object that is no longer raw is archived with the bytes that were uploaded. */
  lemma {:induction false} NotRawIsAccounted(cfg: I.Config, z: I.State, k: string, j: nat, ev: string)
    requires I.Reachable(cfg, z) && k in z.uploads && k !in z.store && ReadBackAt(z.uploads[k], j, ev)
    ensures AccountedAt(cfg, z, k, j, ev)
  {
    IngestSafety.ReachableInv(cfg, z);
    assert I.ArchiveOk(cfg, z, k);
    ArchiveKeepsApart(k, k);
    IngestSafety.ArchivedMeansAccounted(cfg, z, ArchiveKey(k), j);
  }

  lemma {:induction false} CoveredIsRead(c: C.Config, w: C.World, u: C.Upload, i: nat, j: nat)
    requires C.Reachable(c, w) && u in w.uploads && i < |w.inodes| && j < |w.inodes[i].log|
    requires S.Covers(u, i, w.inodes[i].log[j])
    ensures w.inodes[i].log[j].lo <= |w.inodes[i].bytes|
    ensures ReadBackAt(u.bytes, j, w.inodes[i].log[j].ev) <==> StartsLine(w.inodes[i].bytes, w.inodes[i].log[j])
  {
    C.ReachableInv(c, w);
    assert C.UploadOk(w, u);
    S.AppendReadsBackExactly(c, w, i, j, u.bytes);
  }

  lemma {:induction false} CoveredReachesTheServer(c: C.Config, cfg: I.Config, t: System, u: C.Upload, i: nat, j: nat)
    returns (n: nat)
    requires Sound(c, cfg, t) && u in t.w.uploads && i < |t.w.inodes| && j < |t.w.inodes[i].log|
    requires S.Covers(u, i, t.w.inodes[i].log[j]) && t.w.inodes[i].log[j].lo <= |t.w.inodes[i].bytes|
    requires StartsLine(t.w.inodes[i].bytes, t.w.inodes[i].log[j])
    ensures n < |t.keys| && t.w.uploads[n] == u
    ensures t.keys[n] in t.z.store || AccountedAt(cfg, t.z, t.keys[n], j, t.w.inodes[i].log[j].ev)
  {
    n :| 0 <= n < |t.w.uploads| && t.w.uploads[n] == u;
    CoveredIsRead(c, t.w, u, i, j);
    if t.keys[n] !in t.z.store {
      NotRawIsAccounted(cfg, t.z, t.keys[n], j, t.w.inodes[i].log[j].ev);
    }
  }

  /** Over every run of client and server together, each finished append that began a
    line is in a file not yet shipped, or in an object that is still raw, or it was
    judged: its object is archived, its own event is a record of it, and that record
    has its row or one of the five reasons to skip it. The exceptions are the two ways
    of losing it, and having continued an abandoned line. */
  lemma {:induction false} AppendReachesTheTable(c: C.Config, cfg: I.Config, s: System, acts: seq<Action>, t: System,
                                                 i: nat, j: nat)
    requires Init(c, s) && Leads(c, cfg, s, acts, t) && i < |t.w.inodes| && j < |t.w.inodes[i].log|
    ensures |t.keys| == |t.w.uploads| && t.w.inodes[i].log[j].lo <= |t.w.inodes[i].bytes|
    ensures var r := t.w.inodes[i].log[j];
            || t.w.capture == Some(i) || t.w.shipping == Some(i)
            || S.Clobbered(t.w, i) || S.LateWrite(t.w, i, r) || !StartsLine(t.w.inodes[i].bytes, r)
            || exists n :: 0 <= n < |t.keys| && S.Covers(t.w.uploads[n], i, r)
                           && (t.keys[n] in t.z.store || AccountedAt(cfg, t.z, t.keys[n], j, r.ev))
  {
    InitIsSound(c, cfg, s);
    RunKeepsSound(c, cfg, s, acts, t);
    var r := t.w.inodes[i].log[j];
    S.RecoverableExactly(c, t.w, i, j);
    S.NoLoss(c, t.w, i, r);
    if S.Kept(t.w, i, r) && t.w.capture != Some(i) && t.w.shipping != Some(i) && StartsLine(t.w.inodes[i].bytes, r) {
      var u :| u in t.w.uploads && S.Covers(u, i, r);
      var n := CoveredReachesTheServer(c, cfg, t, u, i, j);
    }
  }

  /** Once every object is archived and every file shipped, nothing but the
    exceptions is missing from the server's accounts. */
  lemma {:induction false} DrainedPipelineAccountsForAll(c: C.Config, cfg: I.Config, s: System, acts: seq<Action>,
                                                         t: System, i: nat, j: nat)
    requires Init(c, s) && Leads(c, cfg, s, acts, t) && i < |t.w.inodes| && j < |t.w.inodes[i].log|
    requires t.w.capture.None? && t.w.shipping.None? && forall k :: k in t.keys ==> k !in t.z.store
    ensures t.w.inodes[i].log[j].lo <= |t.w.inodes[i].bytes|
    ensures var r := t.w.inodes[i].log[j];
            StartsLine(t.w.inodes[i].bytes, r) ==>
              S.Clobbered(t.w, i) || S.LateWrite(t.w, i, r)
              || exists k :: k in t.keys && AccountedAt(cfg, t.z, k, j, r.ev)
  {
    AppendReachesTheTable(c, cfg, s, acts, t, i, j);
    assert forall n :: 0 <= n < |t.keys| ==> t.keys[n] in t.keys;
  }
}
