/** The priority overlay of `/api/priorities`: a JSON file mapping issue keys to the priority
    labels that dashboard users choose, independent of Jira's own priority field. Each handler
    reads the whole file, changes the dictionary and writes it back. Here the file is a map
    field plus three flags: whether the file exists, whether its text parses, and whether
    writing it succeeds. */
module PriorityStore {
  import opened Wrappers

  /** One mutating request on the overlay. */
  datatype Change = Put(issueKey: string, priority: string) | Delete(issueKey: string) | ClearAll

  /** The one key that a property assignment does not create on an object made by
      `JSON.parse`: assigning to it calls the inherited prototype setter, which ignores a string. */
  const ProtoKey: string := "__proto__"

  /** The dictionary after one change: `priorities[key] = priority`, `delete priorities[key]`,
      or the empty object written by the clear route. A Put of `__proto__` stores something only
      when the parsed file already holds `__proto__` as a key of its own. */
  function Apply(m: map<string, string>, c: Change): (r: map<string, string>)
    ensures c.Put? && (c.issueKey != ProtoKey || c.issueKey in m) ==>
      r.Keys == m.Keys + {c.issueKey} && r[c.issueKey] == c.priority
    ensures c.Put? && c.issueKey == ProtoKey && c.issueKey !in m ==> r == m
    ensures c.Delete? ==> r.Keys == m.Keys - {c.issueKey}
    ensures !c.ClearAll? ==> forall k :: k in m && k != c.issueKey ==> k in r && r[k] == m[k]
    ensures c.ClearAll? ==> r == map[]
  {
    match c
    case Put(k, p) => if k == ProtoKey && k !in m then m else m[k := p]
    case Delete(k) => m - {k}
    case ClearAll => map[]
  }

  /** The dictionary after a series of successful changes, oldest first. Every label it holds
      was either there from the start or put by one of the changes. */
  function Replay(m: map<string, string>, cs: seq<Change>): (r: map<string, string>)
    ensures forall k :: k in r ==> (k in m && r[k] == m[k]) || Change.Put(k, r[k]) in cs
    decreases |cs|
  {
    if cs == [] then m
    else
      var m' := Apply(m, cs[0]);
      var r := Replay(m', cs[1..]);
      assert forall k :: k in m' ==> (k in m && m'[k] == m[k]) || cs[0] == Change.Put(k, m'[k]);
      assert forall c :: c in cs[1..] ==> c in cs;
      r
  }

  /** What a key holds according to the last change that touched it: its label after a Put,
      nothing after a Delete or a ClearAll, its original value when no change touched it. A Put
      of `__proto__` counts only when the key is held at that point. */
  function LastWrite(m: map<string, string>, cs: seq<Change>, k: string): Option<string>
    decreases |cs|
  {
    if cs == [] then (if k in m then Some(m[k]) else None)
    else
      var c, before := cs[|cs| - 1], LastWrite(m, cs[..|cs| - 1], k);
      match c
      case Put(k', p) =>
        if k' != k then before
        else if k == ProtoKey && before.None? then None
        else Some(p)
      case Delete(k') => if k' == k then None else before
      case ClearAll => None
  }

  lemma {:induction false} ReplaySnoc(m: map<string, string>, cs: seq<Change>, c: Change)
    ensures Replay(m, cs + [c]) == Apply(Replay(m, cs), c)
    decreases |cs|
  {
    if cs == [] {
      assert Replay(m, [c]) == Replay(Apply(m, c), []);
    } else {
      assert (cs + [c])[1..] == cs[1..] + [c];
      ReplaySnoc(Apply(m, cs[0]), cs[1..], c);
    }
  }

  /** Last writer wins, key by key: after any series of changes each key holds what the last
      change touching it left there. */
  lemma {:induction false} ReplayIsLastWrite(m: map<string, string>, cs: seq<Change>, k: string)
    ensures var r := Replay(m, cs); (if k in r then Some(r[k]) else None) == LastWrite(m, cs, k)
    decreases |cs|
  {
    if cs != [] {
      var init, c := cs[..|cs| - 1], cs[|cs| - 1];
      assert cs == init + [c];
      ReplaySnoc(m, init, c);
      ReplayIsLastWrite(m, init, k);
    }
  }

  /** A clear forgets everything that came before it. */
  lemma {:induction false} ClearForgetsHistory(m: map<string, string>, cs: seq<Change>, later: seq<Change>)
    ensures Replay(m, cs + [ClearAll] + later) == Replay(map[], later)
  {
    ReplaySnoc(m, cs, ClearAll);
    ReplayAppend(m, cs + [ClearAll], later);
  }

  lemma {:induction false} ReplayAppend(m: map<string, string>, cs: seq<Change>, more: seq<Change>)
    ensures Replay(m, cs + more) == Replay(Replay(m, cs), more)
    decreases |cs|
  {
    if cs == [] {
      assert cs + more == more;
    } else {
      assert (cs + more)[0] == cs[0] && (cs + more)[1..] == cs[1..] + more;
      ReplayAppend(Apply(m, cs[0]), cs[1..], more);
    }
  }

  /** Deleting a key that was never set leaves the dictionary as it was. */
  lemma DeleteAbsentIsNoOp(m: map<string, string>, k: string)
    requires k !in m
    ensures Apply(m, Delete(k)) == m
  {
  }

  /** Setting a key and then deleting it is the same as deleting it alone. */
  lemma PutThenDelete(m: map<string, string>, k: string, p: string)
    ensures Apply(Apply(m, Put(k, p)), Delete(k)) == Apply(m, Delete(k))
  {
  }

  /** Setting `__proto__` on a dictionary that does not hold it stores nothing, even after a
      clear. */
  lemma ProtoKeyIgnored(m: map<string, string>, p: string)
    requires ProtoKey !in m
    ensures Apply(m, Put(ProtoKey, p)) == m
    ensures Replay(m, [ClearAll, Put(ProtoKey, p)]) == map[]
  {
    assert Replay(m, [ClearAll, Put(ProtoKey, p)]) == Replay(map[], [Put(ProtoKey, p)]);
    assert Replay(map[], [Put(ProtoKey, p)]) == Replay(Apply(map[], Put(ProtoKey, p)), []);
  }

  datatype Payload = Entries(priorities: map<string, string>) | Message(text: string) | Error(text: string)

  datatype Reply = Reply(status: int, payload: Payload)

  /** The priorities file: whether it exists, whether its text parses as the dictionary, whether
      writing it succeeds, and the dictionary it holds. */
  class PriorityFile {
    var onDisk: bool
    var parses: bool
    const writable: bool
    var priorities: map<string, string>

    /** Only an existing file can parse, and a file that does not parse holds no dictionary. */
    ghost predicate Valid()
      reads this
    {
      && (parses ==> onDisk)
      && (!parses ==> priorities == map[])
    }

    /** The file as the process finds it at startup: missing, corrupt, or holding a dictionary. */
    constructor (onDisk: bool, parses: bool, writable: bool, priorities: map<string, string>)
      requires parses ==> onDisk
      requires !parses ==> priorities == map[]
      ensures Valid()
      ensures this.onDisk == onDisk && this.parses == parses && this.writable == writable
      ensures this.priorities == priorities
    {
      this.onDisk := onDisk;
      this.parses := parses;
      this.writable := writable;
      this.priorities := priorities;
    }

    /** `initializeStorage`: `fs.access` only asks whether the file exists, so `{}` is written
        only when it is missing; an existing file is kept even when it does not parse, and a
        failed write is only logged. */
    method Initialize()
      requires Valid()
      modifies this
      ensures Valid()
      ensures old(onDisk) ==> onDisk && parses == old(parses) && priorities == old(priorities)
      ensures !old(onDisk) ==> onDisk == writable && parses == writable && priorities == map[]
    {
      if !onDisk && writable {
        onDisk := true;
        parses := true;
        priorities := map[];
      }
    }

    /** `GET /api/priorities`: the whole dictionary; a missing or corrupt file fails with 500. */
    method GetAll() returns (r: Reply)
      requires Valid()
      ensures parses ==> r == Reply(200, Entries(priorities))
      ensures !parses ==> r == Reply(500, Error("Failed to read priorities"))
    {
      if parses {
        r := Reply(200, Entries(priorities));
      } else {
        r := Reply(500, Error("Failed to read priorities"));
      }
    }

    /** `POST /api/priorities/:issueKey`: a falsy priority is refused before the file is
        touched; otherwise the key is set to the priority and every other entry is kept. A
        failed read, parse or write answers 500 and leaves the file as it was. */
    method Set(issueKey: string, priority: Option<string>) returns (r: Reply)
      requires Valid()
      modifies this
      ensures Valid() && onDisk == old(onDisk) && parses == old(parses)
      ensures (priority.None? || priority.value == "") ==>
        r == Reply(400, Error("Priority is required")) && priorities == old(priorities)
      ensures priority.Some? && priority.value != "" && !(old(parses) && writable) ==>
        r == Reply(500, Error("Failed to update priority")) && priorities == old(priorities)
      ensures priority.Some? && priority.value != "" && old(parses) && writable ==>
        && r == Reply(200, Message("Priority updated successfully"))
        && priorities == Apply(old(priorities), Put(issueKey, priority.value))
        && ((issueKey != ProtoKey || issueKey in old(priorities)) ==>
              issueKey in priorities && priorities[issueKey] == priority.value)
        && (issueKey == ProtoKey && issueKey !in old(priorities) ==> priorities == old(priorities))
        && (forall k :: k != issueKey ==> (k in priorities <==> k in old(priorities)))
        && (forall k :: k != issueKey && k in priorities ==> priorities[k] == old(priorities)[k])
    {
      if priority.None? || priority.value == "" {
        return Reply(400, Error("Priority is required"));
      }
      if !parses {
        return Reply(500, Error("Failed to update priority"));
      }
      var current := priorities;
      if !(issueKey == ProtoKey && issueKey !in current) {
        current := current[issueKey := priority.value];
      }
      if !writable {
        return Reply(500, Error("Failed to update priority"));
      }
      priorities := current;
      r := Reply(200, Message("Priority updated successfully"));
    }

    /** `DELETE /api/priorities/:issueKey`: the key is removed, which succeeds as well when it
        was not there; every other entry is kept. A failed read, parse or write answers 500 and
        leaves the file as it was. */
    method Remove(issueKey: string) returns (r: Reply)
      requires Valid()
      modifies this
      ensures Valid() && onDisk == old(onDisk) && parses == old(parses)
      ensures !(old(parses) && writable) ==>
        r == Reply(500, Error("Failed to remove priority")) && priorities == old(priorities)
      ensures old(parses) && writable ==>
        && r == Reply(200, Message("Priority removed successfully"))
        && priorities == Apply(old(priorities), Delete(issueKey))
        && issueKey !in priorities
        && (forall k :: k != issueKey ==> (k in priorities <==> k in old(priorities)))
        && (forall k :: k in priorities ==> priorities[k] == old(priorities)[k])
    {
      if !parses {
        return Reply(500, Error("Failed to remove priority"));
      }
      var current := priorities;
      current := current - {issueKey};
      if !writable {
        return Reply(500, Error("Failed to remove priority"));
      }
      priorities := current;
      r := Reply(200, Message("Priority removed successfully"));
    }

    /** `DELETE /api/priorities`: writes `{}` whatever the file held, creating it if needed and
        repairing a corrupt one, without reading it first. */
    method Clear() returns (r: Reply)
      requires Valid()
      modifies this
      ensures Valid()
      ensures !writable ==>
        && r == Reply(500, Error("Failed to clear priorities"))
        && onDisk == old(onDisk) && parses == old(parses) && priorities == old(priorities)
      ensures writable ==>
        && r == Reply(200, Message("All priorities cleared successfully"))
        && onDisk && parses && priorities == Apply(old(priorities), ClearAll) && priorities == map[]
    {
      if !writable {
        return Reply(500, Error("Failed to clear priorities"));
      }
      onDisk := true;
      parses := true;
      priorities := map[];
      r := Reply(200, Message("All priorities cleared successfully"));
    }
  }

  /** A client of the store: set a key, read it back, remove it, read again, clear. */
  method SetRemoveClearScenario(store: PriorityFile)
    requires store.Valid() && store.parses && store.writable
    modifies store
  {
    var r := store.Set("K", Some("High"));
    assert r.status == 200;
    r := store.GetAll();
    assert r.payload.Entries? && r.payload.priorities["K"] == "High";
    r := store.Remove("K");
    r := store.GetAll();
    assert r.payload.Entries? && "K" !in r.payload.priorities;
    r := store.Remove("K");
    assert r.status == 200;
    r := store.Set("K", Some(""));
    assert r.status == 400;
    r := store.Clear();
    r := store.GetAll();
    assert r == Reply(200, Entries(map[]));
    r := store.Set(ProtoKey, Some("High"));
    assert r.status == 200;
    r := store.GetAll();
    assert r == Reply(200, Entries(map[]));
  }

  /** A corrupt file survives startup, fails every read route, and is repaired only by a
      clear. */
  method CorruptFileScenario() returns (store: PriorityFile)
    ensures store.parses && store.priorities == map[]
  {
    store := new PriorityFile(true, false, true, map[]);
    store.Initialize();
    assert store.onDisk && !store.parses;
    var r := store.GetAll();
    assert r.status == 500;
    r := store.Set("K", Some("High"));
    assert r.status == 500;
    r := store.Remove("K");
    assert r.status == 500;
    r := store.Clear();
    assert r.status == 200;
    r := store.GetAll();
    assert r == Reply(200, Entries(map[]));
  }
}
