/** Runs in which the client side does lose or spoil an append: the exceptions in
  Shipping happen. */
module LossRuns {
  import opened Lines
  import opened CaptureFile
  import opened Parts
  import opened Shipping

  lemma {:induction false} Go(c: Config, z: World, a: Action) returns (y: World)
    requires Reachable(c, z) && |z.threads| == |c.proc| && Enabled(c, z, a)
    ensures y == Step(c, z, a) && Reachable(c, y)
  {
    var w, acts :| Init(c, w) && Leads(c, w, acts, z);
    LeadsOneMore(c, w, acts, z, a);
    y := Step(c, z, a);
  }

  /** One undisturbed append by thread 0. */
  lemma {:induction false} AppendAlone(c: Config, z: World) returns (y: World, r: Rec)
    requires Reachable(c, z) && c.proc == [0] && |z.threads| == 1 && z.threads[0] == Idle && z.mutex == map[]
    requires z.capture.None?
    ensures Reachable(c, y) && y.threads == z.threads && y.mutex == map[]
    ensures y.capture == Some(|z.inodes|) && |y.inodes| == |z.inodes| + 1 && y.inodes[..|z.inodes|] == z.inodes
    ensures y.inodes[|z.inodes|].log == [r] && |y.inodes[|z.inodes|].bytes| == 2
    ensures y.shipping == z.shipping && y.uploads == z.uploads && y.ship == z.ship
  {
    ReachableInv(c, z);
    y := OpenAlone(c, z);
    y := Go(c, y, Write(0, 2));
    r := y.inodes[|z.inodes|].log[0];
    y := Go(c, y, Unlock(0));
    y := Go(c, y, Leave(0));
    assert y.threads == z.threads && y.mutex == map[];
  }

  lemma {:induction false} OpenAlone(c: Config, z: World) returns (y: World)
    requires Reachable(c, z) && c.proc == [0] && |z.threads| == 1 && z.threads[0] == Idle && z.mutex == map[]
    requires z.capture.None?
    ensures Reachable(c, y) && y.mutex == map[0 := 0] && |y.threads| == 1
    ensures y.threads[0].Writing? && y.threads[0].ev == "a" && y.threads[0].ino == |z.inodes| && y.threads[0].done == 0
    ensures y.capture == Some(|z.inodes|) && |y.inodes| == |z.inodes| + 1 && y.inodes[..|z.inodes|] == z.inodes
    ensures y.inodes[|z.inodes|].log == [] && y.inodes[|z.inodes|].bytes == "" && y.inodes[|z.inodes|].holder == Some(0)
    ensures y.shipping == z.shipping && y.uploads == z.uploads && y.ship == z.ship
  {
    y := Go(c, z, Enter(0, "a"));
    y := Go(c, y, Open(0));
    y := Go(c, y, Flock(0));
  }

  /** The shipper rotates the capture file and its put fails. */
  lemma {:induction false} RotateWithoutPut(c: Config, z: World) returns (y: World)
    requires Reachable(c, z) && c == Config([0], 1) && |z.threads| == 1 && z.ship.StatCapture?
    requires z.capture.Some? && z.capture.value < |z.inodes| && |z.inodes[z.capture.value].bytes| >= 1
    requires z.shipping.Some? ==> z.shipping.value < |z.inodes| && z.shipping != z.capture
    ensures Reachable(c, y) && y.ship.Top? && y.threads == z.threads && y.mutex == z.mutex
    ensures y.capture.None? && y.shipping == z.capture && y.uploads == z.uploads && |y.inodes| == |z.inodes|
    ensures forall i :: 0 <= i < |z.inodes| ==> y.inodes[i].log == z.inodes[i].log
    ensures z.shipping.Some? ==> y.inodes[z.shipping.value].fate.Overwritten?
  {
    y := Go(c, z, DoStatCapture(false));
    y := RenameOver(c, y);
    y := ReadWithoutPut(c, y);
  }

  lemma {:induction false} RenameOver(c: Config, z: World) returns (y: World)
    requires Reachable(c, z) && |z.threads| == |c.proc| && z.ship.Rename?
    requires z.capture.Some? && z.capture.value < |z.inodes|
    requires z.shipping.Some? ==> z.shipping.value < |z.inodes| && z.shipping != z.capture
    ensures Reachable(c, y)
            && y == z.(now := y.now, ship := Read(false), capture := None, shipping := z.capture, inodes := y.inodes)
    ensures |y.inodes| == |z.inodes| && forall i :: 0 <= i < |z.inodes| ==> y.inodes[i].log == z.inodes[i].log
    ensures z.shipping.Some? ==> y.inodes[z.shipping.value].fate.Overwritten?
  {
    y := Go(c, z, DoRename(true));
  }

  lemma {:induction false} ReadWithoutPut(c: Config, z: World) returns (y: World)
    requires Reachable(c, z) && |z.threads| == |c.proc| && z.ship == Read(false)
    requires z.shipping.Some? && z.shipping.value < |z.inodes|
    ensures Reachable(c, y) && y == z.(ship := Top, now := z.now + 2)
  {
    y := Go(c, z, DoRead(true));
    y := Go(c, y, DoPut(false, false));
  }

  /** A reachable loss: two rotations whose puts all fail. The second rename
    replaces the waiting file, because a failed recovery does not stop it. */
  lemma {:induction false} ClobberHappens() returns (c: Config, z: World, r: Rec)
    ensures Reachable(c, z) && |z.inodes| > 0 && r in z.inodes[0].log
    ensures Clobbered(z, 0) && !Kept(z, 0, r)
  {
    c := Config([0], 1);
    z := World(0, map[], [Idle], [], None, None, [], Top);
    assert Leads(c, z, [], z);
    z, r := AppendAlone(c, z);
    z := Go(c, z, DoStatShipping(false));
    z := RotateWithoutPut(c, z);
    var r2;
    z, r2 := AppendAlone(c, z);
    z := Go(c, z, DoStatShipping(false));
    z := Go(c, z, DoRead(true));
    z := Go(c, z, DoPut(false, false));
    z := RotateWithoutPut(c, z);
  }

  lemma {:induction false} RenameThenRead(c: Config, z: World) returns (y: World)
    requires Reachable(c, z) && c == Config([0], 0) && |z.threads| == 1 && z.ship.StatCapture?
    requires z.capture == Some(0) && |z.inodes| == 1 && z.shipping.None?
    ensures Reachable(c, y) && y.threads == z.threads && y.uploads == z.uploads && y.capture.None?
            && y.shipping == Some(0)
    ensures y.inodes == [z.inodes[0].(renamedAt := Some(z.now + 1))] && y.now == z.now + 3
    ensures y.ship == Put(false, Upload(0, z.inodes[0].bytes, z.now + 2))
  {
    y := StatThenRename(c, z);
    y := Go(c, y, DoRead(true));
  }

  lemma {:induction false} StatThenRename(c: Config, z: World) returns (y: World)
    requires Reachable(c, z) && c == Config([0], 0) && |z.threads| == 1 && z.ship.StatCapture?
    requires z.capture == Some(0) && |z.inodes| == 1 && z.shipping.None?
    ensures Reachable(c, y) && y.threads == z.threads && y.uploads == z.uploads && y.capture.None?
            && y.shipping == Some(0)
    ensures y.inodes == [z.inodes[0].(renamedAt := Some(z.now + 1))] && y.now == z.now + 2 && y.ship == Read(false)
  {
    y := Go(c, z, DoStatCapture(false));
    y := Go(c, y, DoRename(true));
  }

  lemma {:induction false} PutThenRemove(c: Config, z: World) returns (y: World)
    requires Reachable(c, z) && c == Config([0], 0) && |z.threads| == 1 && z.ship.Put?
    requires |z.inodes| == 1 && z.shipping == Some(0)
    ensures Reachable(c, y) && y.threads == z.threads && y.uploads == z.uploads + [z.ship.up] && y.capture == z.capture
    ensures y.shipping.None? && y.inodes == [z.inodes[0].(fate := Removed)] && y.now == z.now + 2
  {
    y := Go(c, z, DoPut(true, true));
    y := Go(c, y, DoRemove(true));
  }

  /** An append has its handle and nothing else when the rotation starts. */
  lemma {:induction false} OpenBeforeRotation() returns (c: Config, z: World)
    ensures c == Config([0], 0) && Reachable(c, z) && z.threads == [Opened("a", 0, 1)] && z.ship.StatCapture?
    ensures z.capture == Some(0) && z.inodes == [Inode("", None, [], [], None, Live)]
    ensures z.shipping.None? && z.uploads == [] && z.now == 3
  {
    c, z := OpenFirst("a");
    z := Go(c, z, DoStatShipping(false));
  }

  lemma {:induction false} OpenFirst(ev: string) returns (c: Config, z: World)
    requires EventLine(ev)
    ensures c == Config([0], 0) && Reachable(c, z)
    ensures z == World(2, map[0 := 0], [Opened(ev, 0, 1)], [Inode("", None, [], [], None, Live)], Some(0), None, [],
                       Top)
  {
    c := Config([0], 0);
    z := World(0, map[], [Idle], [], None, None, [], Top);
    assert Leads(c, z, [], z);
    z := Go(c, z, Enter(0, ev));
    z := Go(c, z, Open(0));
  }

  /** A reachable loss: the handle was open across the rename and the write came
    after the read, although every request succeeded. */
  lemma {:induction false} LateWriteHappens() returns (c: Config, z: World, r: Rec)
    ensures Reachable(c, z) && |z.inodes| > 0 && r in z.inodes[0].log
    ensures LateWrite(z, 0, r) && !Kept(z, 0, r)
  {
    c, z := OpenBeforeRotation();
    z := RenameThenRead(c, z);
    var u := z.ship.up;
    z := PutThenRemove(c, z);
    z := FinishAppend(c, z);
    r := z.inodes[0].log[0];
    assert u in z.uploads;
  }

  lemma {:induction false} FinishAppend(c: Config, z: World) returns (y: World)
    requires Reachable(c, z) && c == Config([0], 0) && z.threads == [Opened("a", 0, 1)]
    requires |z.inodes| == 1 && z.inodes[0].holder.None? && z.inodes[0].log == [] && z.inodes[0].bytes == ""
    ensures Reachable(c, y) && |y.inodes| == 1 && y.inodes[0].log == [Rec("a", 0, 2, 1, z.now + 1)]
    ensures y.inodes[0].renamedAt == z.inodes[0].renamedAt && y.inodes[0].fate == z.inodes[0].fate
    ensures y.uploads == z.uploads && y.capture == z.capture && y.shipping == z.shipping
  {
    y := Go(c, z, Flock(0));
    WholeChunk(y.inodes[0], y.now);
    y := Go(c, y, Write(0, 2));
  }

  lemma WholeChunk(f: Inode, now: nat)
    requires f.bytes == "" && f.log == []
    ensures WriteChunk(f, Writing("a", 0, 1, 0), 2, now).log == [Rec("a", 0, 2, 1, now)]
    ensures WriteChunk(f, Writing("a", 0, 1, 0), 2, now)
            == f.(bytes := "a\n", log := [Rec("a", 0, 2, 1, now)], parts := f.parts + [Whole("a")])
  {
    assert Line("a")[0..2] == "a\n" && "" + "a\n" == "a\n";
  }

  lemma {:induction false} StartFirst() returns (c: Config, z: World)
    ensures c == Config([0], 0) && Reachable(c, z) && z.threads == [Writing("ax", 0, 1, 0)] && z.mutex == map[0 := 0]
    ensures z.inodes == [Inode("", Some(0), [], [], None, Live)] && z.capture == Some(0)
  {
    c, z := OpenFirst("ax");
    z := Go(c, z, Flock(0));
  }

  /** One byte of "ax" is written, then the writer fails. */
  lemma {:induction false} AbandonOneByte() returns (c: Config, z: World)
    ensures c == Config([0], 0) && Reachable(c, z) && z.threads == [Idle] && z.mutex == map[] && z.capture == Some(0)
    ensures z.inodes == [Inode("a", None, [], [Piece("a")], None, Live)]
  {
    c, z := WriteOneByte();
    FirstChunk(z.now);
    z := Go(c, z, Fail(0));
  }

  lemma {:induction false} WriteOneByte() returns (c: Config, z: World)
    ensures c == Config([0], 0) && Reachable(c, z) && z.threads == [Writing("ax", 0, 1, 1)] && z.mutex == map[0 := 0]
    ensures z.inodes == [Inode("a", Some(0), [], [], None, Live)] && z.capture == Some(0)
  {
    c, z := StartFirst();
    FirstChunk(z.now);
    z := Go(c, z, Write(0, 1));
  }

  lemma FirstChunk(now: nat)
    ensures WriteChunk(Inode("", Some(0), [], [], None, Live), Writing("ax", 0, 1, 0), 1, now)
            == Inode("a", Some(0), [], [], None, Live)
    ensures AbandonWrite(Inode("a", Some(0), [], [], None, Live), Writing("ax", 0, 1, 1))
            == Inode("a", None, [], [Piece("a")], None, Live)
  {
    assert Line("ax")[0..1] == "a" && Line("ax")[..1] == "a";
    assert [] + [Piece("a")] == [Piece("a")];
  }

  lemma SecondChunk(now: nat, openedAt: nat)
    ensures WriteChunk(Inode("a", Some(0), [], [Piece("a")], None, Live), Writing("b", 0, openedAt, 0), 2, now)
            == Inode("ab\n", Some(0), [Rec("b", 1, 3, openedAt, now)], [Piece("a"), Whole("b")], None, Live)
  {
    assert Line("b")[0..2] == "b\n";
    assert "a" + "b\n" == "ab\n";
    assert [Piece("a")] + [Whole("b")] == [Piece("a"), Whole("b")];
  }

  lemma {:induction false} StartSecond(c: Config, z: World) returns (y: World)
    requires c == Config([0], 0) && Reachable(c, z) && z.threads == [Idle] && z.mutex == map[] && z.capture == Some(0)
    requires z.inodes == [Inode("a", None, [], [Piece("a")], None, Live)]
    ensures Reachable(c, y) && |y.threads| == 1 && y.threads[0].Writing? && y.threads[0].ev == "b"
    ensures y.threads[0].ino == 0 && y.threads[0].done == 0 && y.capture == Some(0)
    ensures y.inodes == [Inode("a", Some(0), [], [Piece("a")], None, Live)]
  {
    y := Go(c, z, Enter(0, "b"));
    y := Go(c, y, Open(0));
    y := Go(c, y, Flock(0));
  }

  lemma {:induction false} FinishSecond(c: Config, z: World) returns (y: World, r: Rec)
    requires c == Config([0], 0) && Reachable(c, z) && |z.threads| == 1 && z.threads[0].Writing?
             && z.threads[0].ev == "b"
    requires z.threads[0].ino == 0 && z.threads[0].done == 0 && z.capture == Some(0)
    requires z.inodes == [Inode("a", Some(0), [], [Piece("a")], None, Live)]
    ensures Reachable(c, y) && y.capture == Some(0) && r.ev == "b" && r.lo == 1
    ensures y.inodes == [Inode("ab\n", None, [r], [Piece("a"), Whole("b")], None, Live)]
  {
    SecondChunk(z.now, z.threads[0].openedAt);
    y := Go(c, z, Write(0, 2));
    r := y.inodes[0].log[0];
    y := Go(c, y, Unlock(0));
  }

  /** A reachable torn file: the append of "b" succeeds and is kept, and all that
    any reader gets is the record "ab". */
  lemma {:induction false} TornLineHappens() returns (c: Config, z: World, r: Rec)
    ensures Reachable(c, z) && |z.inodes| == 1 && z.inodes[0].log == [r] && r.ev == "b" && TornAt(z, 0)
    ensures Kept(z, 0, r) && !Recoverable(z, 0, 0)
    ensures z.inodes[0].holder.None? && Records(z.inodes[0].bytes) == ["ab"]
  {
    c, z := AbandonOneByte();
    z := StartSecond(c, z);
    z, r := FinishSecond(c, z);
    assert z.inodes[0].parts[0].Piece?;
    ReaderOfTorn();
    QuietFileReadsBack(c, z, 0);
    RecoverableExactly(c, z, 0, 0);
  }

  lemma ReaderOfTorn()
    ensures Reader([Piece("a"), Whole("b")]) == (["ab"], "")
  {
    OneMore([Piece("a")], Whole("b"));
    OneMore([], Piece("a"));
    assert [Piece("a"), Whole("b")] == [Piece("a")] + [Whole("b")] && [] + [Piece("a")] == [Piece("a")];
    assert Reader([Piece("a")]) == ([], "" + "a") && "" + "a" == "a";
    assert "a" + "b" == "ab" && [] + ["ab"] == ["ab"];
  }
}
