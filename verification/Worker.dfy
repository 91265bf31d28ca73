/** The worker that waits for its core-store id (voltha/worker.py), as the object whose
    polls are the `PollRead`, `PollHandle` and `Fire` steps of `CrashSafety`. */
module WorkerObject {
  import opened Collections
  import opened CoreIds
  import opened LeaderStore
  import CrashSafety

  /** One entry of a reply: key and value, the empty string standing for no value. */
  datatype Entry = Entry(key: string, value: string)

  /** `v` is the first non-empty value under exactly this key. */
  ghost predicate IsFirstValue(reply: seq<Entry>, key: string, v: Option<string>) {
    match v
    case None => forall i :: 0 <= i < |reply| ==> !(reply[i].key == key && reply[i].value != "")
    case Some(x) =>
      exists i :: 0 <= i < |reply| && reply[i] == Entry(key, x) && x != "" &&
        forall j :: 0 <= j < i ==> !(reply[j].key == key && reply[j].value != "")
  }

  /** The list of matching values is built in full; its head is used. */
  method FirstValue(reply: seq<Entry>, key: string) returns (v: Option<string>)
    ensures IsFirstValue(reply, key, v)
  {
    var coreStores: seq<string> := [];
    for i := 0 to |reply|
      invariant IsFirstValue(reply[..i], key, if coreStores == [] then None else Some(coreStores[0]))
    {
      ghost var found := if coreStores == [] then None else Some(coreStores[0]);
      if reply[i].key == key && reply[i].value != "" {
        coreStores := coreStores + [reply[i].value];
      }
      Extends(reply, i, key, found, coreStores);
    }
    assert reply[..|reply|] == reply;
    v := if coreStores == [] then None else Some(coreStores[0]);
  }

  class Worker {
    const id: string
    const host: string
    var halted: bool
    var coreStoreId: Option<CoreId>
    var timer: bool
    var fired: seq<CoreId>
    var peers: Option<map<CoreId, string>>

    /** The deferred fires at most once, with the id, and only after the timer was armed. */
    ghost predicate Valid()
      reads this
    {
      && (timer ==> coreStoreId.Some? && fired == [])
      && (fired != [] ==> coreStoreId.Some? && fired == [coreStoreId.value])
      && (peers.Some? ==> coreStoreId.Some? && coreStoreId.value !in peers.value)
    }

    constructor (id: string, host: string)
      ensures Valid() && this.id == id && this.host == host
      ensures !halted && coreStoreId == None && !timer && fired == [] && peers == None
    {
      this.id, this.host, halted, coreStoreId, timer, fired, peers := id, host, false, None, false, [], None;
    }

    /** As a process of the cluster's state machine, while no reply is on its way. */
    ghost function View(): CrashSafety.Worker
      reads this
    {
      CrashSafety.Worker(host, !halted, None, coreStoreId, timer, fired)
    }

    /** Handles a reply; `again` tells whether to poll once more. */
    method TrackMyAssignments(reply: seq<Entry>) returns (again: bool, ghost found: Option<string>)
      requires Valid()
      modifies this
      ensures Valid() && IsFirstValue(reply, AssignmentKey(id), found)
      ensures View() == if old(coreStoreId).None? && found.Some?
                        then old(View()).(coreId := found, timer := true) else old(View())
      ensures again <==> !halted && coreStoreId.None?
      ensures peers == old(peers)
    {
      var v := FirstValue(reply, ASSIGNMENT_PREFIX + id + "/" + CORE_STORAGE_SUFFIX);
      found := v;
      if coreStoreId.None? && v.Some? {
        coreStoreId := v;
        timer := true;
      }
      again := !halted && coreStoreId.None?;
    }

    /** The soak timer expires: the deferred fires with the id. */
    method ProcessConfigAssignment()
      requires Valid() && timer
      modifies this
      ensures Valid() && !timer && coreStoreId == old(coreStoreId) && fired == [coreStoreId.value]
      ensures halted == old(halted) && peers == old(peers)
    {
      fired := fired + [coreStoreId.value];
      timer := false;
    }

    /** `stop`: no timer outlives it. */
    method Stop()
      requires Valid()
      modifies this
      ensures Valid() && halted && !timer && coreStoreId == old(coreStoreId) && fired == old(fired)
      ensures peers == old(peers)
    {
      halted := true;
      timer := false;
    }

    /** A new mapping: publishes the other members' part of it when that has changed. Taking out
        the own entry raises when there is none. */
    method TrackMyPeers(mapping: map<CoreId, string>) returns (ok: bool, published: bool)
      requires Valid() && coreStoreId.Some?
      modifies this`peers
      ensures Valid()
      ensures ok <==> coreStoreId.value in mapping
      ensures ok ==> peers == Some(mapping - {coreStoreId.value}) && (published <==> peers != old(peers))
      ensures !ok ==> !published && peers == old(peers)
    {
      if coreStoreId.value !in mapping {
        return false, false;
      }
      var others := mapping - {coreStoreId.value};
      published := peers != Some(others);
      if published {
        peers := Some(others);
      }
      ok := true;
    }
  }

  lemma Extends(reply: seq<Entry>, i: nat, key: string, found: Option<string>, coreStores: seq<string>)
    requires i < |reply| && IsFirstValue(reply[..i], key, found)
    requires var hit := reply[i].key == key && reply[i].value != "";
             if found.Some? then coreStores != [] && coreStores[0] == found.value
             else coreStores == if hit then [reply[i].value] else []
    ensures IsFirstValue(reply[..i + 1], key, if coreStores == [] then None else Some(coreStores[0]))
  {
    var seen, more := reply[..i], reply[..i + 1];
    assert more[i] == reply[i] && forall j :: 0 <= j < i ==> more[j] == seen[j];
    if found.Some? {
      var k :| 0 <= k < i && seen[k] == Entry(key, found.value) && found.value != "" &&
        forall j :: 0 <= j < k ==> !(seen[j].key == key && seen[j].value != "");
      assert more[k] == seen[k];
    }
  }

  // ---------------------------------------------------------- the reply of the store

  function Text(v: Option<CoreId>): string { if v.Some? then v.value else "" }

  /** The store's answer to a recursive read: the records under the prefix, each once. */
  ghost predicate IsReply(records: map<string, Option<CoreId>>, prefix: string, reply: seq<Entry>) {
    && (forall i, j :: 0 <= i < j < |reply| ==> reply[i].key != reply[j].key)
    && (forall i :: 0 <= i < |reply| ==> reply[i].key in records && reply[i].value == Text(records[reply[i].key]))
    && (forall k :: k in records && prefix <= k ==> exists i :: 0 <= i < |reply| && reply[i].key == k)
  }

  /** Records under longer ids that share the prefix do not disturb: a poll that finds a value
      is the machine's read and handle steps on the member's own record. */
  lemma PollIsReadAndHandle(s: CrashSafety.State, id: string, reply: seq<Entry>, v: string)
    requires CrashSafety.Running(s, id) && s.workers[id].coreId.None?
    requires IsReply(s.store.records, ASSIGNMENT_PREFIX + id, reply) && IsFirstValue(reply, AssignmentKey(id), Some(v))
    ensures AssignmentKey(id) in s.store.records && s.store.records[AssignmentKey(id)] == Some(v)
    ensures var w := s.workers[id];
            var t := s.(workers := s.workers[id := w.(reading := Some(v))]);
            var u := s.(workers := s.workers[id := w.(reading := Some(v), coreId := Some(v), timer := true)]);
            CrashSafety.Next(s, CrashSafety.PollRead(id), t) && CrashSafety.Next(t, CrashSafety.PollHandle(id), u)
  {
    var w := s.workers[id];
    var t := s.(workers := s.workers[id := w.(reading := Some(v))]);
    assert t.workers[id := w.(reading := Some(v), coreId := Some(v), timer := true)] ==
           s.workers[id := w.(reading := Some(v), coreId := Some(v), timer := true)];
  }

  /** And one that finds none leaves a member without a usable record of its own. */
  lemma EmptyPoll(records: map<string, Option<CoreId>>, id: string, reply: seq<Entry>)
    requires IsReply(records, ASSIGNMENT_PREFIX + id, reply) && IsFirstValue(reply, AssignmentKey(id), None)
    ensures AssignmentKey(id) !in records || Text(records[AssignmentKey(id)]) == ""
  {
    var key := AssignmentKey(id);
    assert ASSIGNMENT_PREFIX + id <= key;
    if key in records {
      var i :| 0 <= i < |reply| && reply[i].key == key;
    }
  }
}
