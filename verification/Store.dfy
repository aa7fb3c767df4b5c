/** The object store: key space, listing and the in-memory reference
  implementation (internal/minioclient/fake.go). */
module Store {
  import opened Lines
  import opened Lex

  predicate Ascending(keys: seq<string>) {
    forall i, j :: 0 <= i < j < |keys| ==> Less(keys[i], keys[j])
  }

  /** What ListObjects returns: the keys with the prefix that sort after
    `after`, each once, in ascending order. */
  predicate IsListing(objs: map<string, string>, prefix: string, after: string, keys: seq<string>) {
    && Ascending(keys)
    && (forall k :: k in keys ==> k in objs && prefix <= k && Less(after, k))
    && (forall k :: k in objs && prefix <= k && Less(after, k) ==> k in keys)
  }

  /** The listing is determined by the store. */
  lemma {:induction false} ListingUnique(objs: map<string, string>, prefix: string, after: string, a: seq<string>,
                                         b: seq<string>)
    requires IsListing(objs, prefix, after, a) && IsListing(objs, prefix, after, b)
    ensures a == b
  {
    AscendingUnique(a, b);
  }

  lemma {:induction false} AscendingUnique(a: seq<string>, b: seq<string>)
    requires Ascending(a) && Ascending(b) && forall k :: k in a <==> k in b
    ensures a == b
  {
    if a == [] {
      if b != [] {
        HasFirst(b);
      }
    } else {
      assert a[0] in a && b != [];
      assert b[0] in b;
      var i :| 0 <= i < |b| && b[i] == a[0];
      var j :| 0 <= j < |a| && a[j] == b[0];
      if i > 0 {
        if j > 0 {
          Asymmetric(a[0], b[0]);
        }
        Irreflexive(a[0]);
      }
      assert a[0] == b[0];
      forall k ensures k in a[1..] <==> k in b[1..] {
        Irreflexive(a[0]);
        assert k in a[1..] <==> k in a && k != a[0] by {
          assert a == [a[0]] + a[1..];
        }
        assert k in b[1..] <==> k in b && k != b[0] by {
          assert b == [b[0]] + b[1..];
        }
      }
      AscendingUnique(a[1..], b[1..]);
      assert a == [a[0]] + a[1..] && b == [b[0]] + b[1..];
    }
  }

  lemma HasFirst(b: seq<string>)
    requires b != []
    ensures exists k :: k in b
  {
    assert b[0] in b;
  }

  const RAW := "raw/"
  const ARCHIVE := "processed/raw-archive/"

  function RawPrefix(machine: string): string {
    "raw/" + machine + "/"
  }

  /** strings.TrimPrefix(key, "raw/") under the archive prefix. */
  function ArchiveKey(key: string): string {
    ARCHIVE + if RAW <= key then key[4..] else key
  }

  function IndexSlash(s: string): (i: nat)
    ensures i <= |s| && '/' !in s[..i] && (i < |s| ==> s[i] == '/')
  {
    if s == "" || s[0] == '/' then 0
    else
      var j := IndexSlash(s[1..]);
      assert s[..j + 1] == [s[0]] + s[1..][..j];
      j + 1
  }

  /** The machine an object belongs to, as listMachines reads it off the key. */
  function MachineOf(key: string): Option<string> {
    var rest := if RAW <= key then key[4..] else key;
    var i := IndexSlash(rest);
    if i == 0 || i == |rest| then None else Some(rest[..i])
  }

  predicate IsRaw(key: string) {
    RAW <= key && MachineOf(key).Some?
  }

  lemma {:induction false} SlashAt(m: string, rest: string)
    requires '/' !in m
    ensures IndexSlash(m + "/" + rest) == |m|
  {
    var s := m + "/" + rest;
    assert s[|m|] == '/' && s[..|m|] == m;
    assert forall k :: 0 <= k < |m| ==> s[k] == m[k];
    assert forall k :: 0 <= k < IndexSlash(s) ==> s[k] == s[..IndexSlash(s)][k];
  }

  /** Where an object goes, and whose it is. */
  lemma {:induction false} KeySays(machine: string, rest: string)
    requires machine != "" && '/' !in machine
    ensures ArchiveKey("raw/" + rest) == "processed/raw-archive/" + rest
    ensures MachineOf("raw/" + machine + "/" + rest) == Some(machine)
    ensures RawPrefix(machine) == "raw/" + machine + "/"
  {
    assert ("raw/" + rest)[4..] == rest;
    var key := "raw/" + (machine + "/" + rest);
    assert key[4..] == machine + "/" + rest && key == "raw/" + machine + "/" + rest;
    SlashAt(machine, rest);
    assert RAW <= key && (machine + "/" + rest)[..|machine|] == machine;
    assert |machine| < |machine + "/" + rest|;
  }

  /** A machine's prefix lists exactly the keys listMachines attributes to it. */
  lemma {:induction false} PrefixMeansMachine(m: string, key: string)
    requires m != "" && '/' !in m
    ensures RawPrefix(m) <= key <==> RAW <= key && MachineOf(key) == Some(m)
  {
    if RawPrefix(m) <= key {
      var tail := key[|RawPrefix(m)|..];
      assert key == RAW + (m + "/" + tail);
      assert key[4..] == m + "/" + tail;
      SlashAt(m, tail);
      assert key[4..][..|m|] == m;
    }
    if RAW <= key && MachineOf(key) == Some(m) {
      var rest := key[4..];
      var i := IndexSlash(rest);
      assert rest == rest[..i] + "/" + rest[i + 1..];
      assert key == RAW + rest;
      assert key == RawPrefix(m) + rest[i + 1..];
    }
  }

  lemma {:induction false} MachineHasNoSlash(key: string)
    requires IsRaw(key)
    ensures MachineOf(key).value != "" && '/' !in MachineOf(key).value
    ensures RawPrefix(MachineOf(key).value) <= key
  {
    PrefixMeansMachine(MachineOf(key).value, key);
  }

  /** Archiving never merges two raw objects and never lands on a raw key. */
  lemma {:induction false} ArchiveKeepsApart(a: string, b: string)
    requires RAW <= a && RAW <= b
    ensures ArchiveKey(a) == ArchiveKey(b) <==> a == b
    ensures !(RAW <= ArchiveKey(a))
  {
    assert a == RAW + a[4..] && b == RAW + b[4..];
    assert ArchiveKey(a)[|ARCHIVE|..] == a[4..] && ArchiveKey(b)[|ARCHIVE|..] == b[4..];
    assert ArchiveKey(a)[0] == 'p';
  }

  /** The in-memory store. `fail` stands for the injected error of each call. */
  class Fake {
    var objs: map<string, string>

    constructor ()
      ensures objs == map[]
    {
      objs := map[];
    }

    method PutObject(key: string, body: string, md5Matches: bool, fail: bool) returns (ok: bool)
      modifies this
      ensures ok <==> !fail && md5Matches
      ensures objs == if ok then old(objs)[key := body] else old(objs)
    {
      if fail || !md5Matches {
        return false;
      }
      objs := objs[key := body];
      return true;
    }

    method GetObject(key: string, fail: bool) returns (body: Option<string>)
      ensures body == if !fail && key in objs then Some(objs[key]) else None
    {
      if fail || key !in objs {
        return None;
      }
      return Some(objs[key]);
    }

    /** Either the object is at its new key and gone from the old one, or nothing changed. */
    method MoveObject(src: string, dst: string, fail: bool) returns (ok: bool)
      modifies this
      ensures ok <==> !fail && src in old(objs)
      ensures !ok ==> objs == old(objs)
      ensures ok ==> objs == old(objs)[dst := old(objs)[src]] - {src}
      ensures ok ==> src !in objs
      ensures ok && src != dst ==> dst in objs && objs[dst] == old(objs)[src]
      ensures forall k :: k != src && k != dst ==>
                (k in objs <==> k in old(objs)) && (k in objs ==> objs[k] == old(objs)[k])
    {
      if fail || src !in objs {
        return false;
      }
      var data := objs[src];
      objs := objs[dst := data];
      objs := objs - {src};
      return true;
    }

    method ListObjects(prefix: string, after: string, fail: bool) returns (keys: Option<seq<string>>)
      ensures keys.None? <==> fail
      ensures keys.Some? ==> IsListing(objs, prefix, after, keys.value)
    {
      if fail {
        return None;
      }
      var found := CollectKeys(objs, prefix, after);
      return Some(found);
    }
  }

  method CollectKeys(objs: map<string, string>, prefix: string, after: string) returns (found: seq<string>)
    ensures IsListing(objs, prefix, after, found)
  {
    found := [];
    var todo := objs.Keys;
    while todo != {}
      invariant todo <= objs.Keys && Ascending(found)
      invariant forall k :: k in found <==> k in objs && k !in todo && prefix <= k && Less(after, k)
      decreases |todo|
    {
      var k :| k in todo;
      todo := todo - {k};
      if prefix <= k && Less(after, k) {
        found := SortedInsert(found, k);
      }
    }
  }

  /** Keeps a list of keys sorted while one more is added. */
  method SortedInsert(keys: seq<string>, k: string) returns (r: seq<string>)
    requires Ascending(keys) && k !in keys
    ensures Ascending(r) && forall x :: x in r <==> x in keys || x == k
  {
    var i := 0;
    while i < |keys| && Less(keys[i], k)
      invariant 0 <= i <= |keys| && forall j :: 0 <= j < i ==> Less(keys[j], k)
    {
      i := i + 1;
    }
    r := keys[..i] + [k] + keys[i..];
    if i < |keys| {
      Total(keys[i], k);
    }
    forall a, b | 0 <= a < b < |r| ensures Less(r[a], r[b]) {
      if a == i {
        if b > i + 1 {
          Transitive(k, keys[i], keys[b - 1]);
        }
      } else if a > i {
        assert r[a] == keys[a - 1] && r[b] == keys[b - 1];
      } else if b > i {
        assert r[a] == keys[a] && r[b] == keys[b - 1];
      }
    }
  }
}
