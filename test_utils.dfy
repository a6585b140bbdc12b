/**
 * Generators of random workloads for the vault's tests: byte vectors,
 * immutable and mutable data, and batches of entry actions that are
 * consistent with the versions of an existing mutable-data record.
 */
module TestUtils {
  import opened Common
  import opened Random
  import opened Routing
  import opened Authorities

  /** Length of the keys and contents the action generator draws. */
  const ACTION_BYTES: nat := 10

  /** `gen_vec(size, rng)`: `size` random bytes, one draw each, in draw order. */
  function GenVec(size: nat, rng: Rng): (r: (Bytes, Rng))
    ensures |r.0| == size
    ensures forall i :: 0 <= i < size ==> r.0[i] == Reduce(rng.Peek(i), 256)
    ensures r.1 == rng.Skip(size)
    decreases size
  {
    if size == 0 then ([], rng)
    else
      var (b, rng1) := GenByte(rng);
      var (tail, rng2) := GenVec(size - 1, rng1);
      ([b] + tail, rng2)
  }

  /** `gen_immutable_data(size, rng)`: immutable data whose content is `size` random bytes. */
  function GenImmutableData(size: nat, rng: Rng): (r: (ImmutableData, Rng))
    ensures |r.0.value| == size
    ensures r.1 == rng.Skip(size)
  {
    var (v, rest) := GenVec(size, rng);
    (ImmutableData(v), rest)
  }

  /** The shape every generated entry has: short key, short content, version 0. */
  predicate EntryShaped(key: Bytes, value: Value)
  {
    1 <= |key| < 10 && 1 <= |value.content| < 10 && value.entryVersion == 0
  }

  /**
   * `gen_mutable_data_entry(rng)`: a key of random length in [1, 10), then a
   * content of random length in [1, 10), at version 0. It takes between 4 and
   * 20 draws.
   */
  function GenMutableDataEntry(rng: Rng): (r: (Bytes, Value, Rng))
    ensures EntryShaped(r.0, r.1)
    ensures r.2.draws == rng.draws
    ensures rng.next + 4 <= r.2.next <= rng.next + 20
  {
    var (keySize, rng1) := GenRange(1, 10, rng);
    var (key, rng2) := GenVec(keySize, rng1);
    var (valueSize, rng3) := GenRange(1, 10, rng2);
    var (content, rng4) := GenVec(valueSize, rng3);
    (key, Value(content, 0), rng4)
  }

  /**
   * What the loop of `gen_mutable_data_entries` produces from `entries` when
   * it may run at most `fuel` more rounds: `None` if `num` distinct keys are
   * not reached in time (the source would keep drawing).
   */
  function FillEntries(num: nat, entries: map<Bytes, Value>, rng: Rng, fuel: nat)
    : Option<(map<Bytes, Value>, Rng)>
    decreases fuel
  {
    if |entries| < num then
      if fuel == 0 then None
      else
        var e := GenMutableDataEntry(rng);
        FillEntries(num, entries[e.0 := e.1], e.2, fuel - 1)
    else
      Some((entries, rng))
  }

  /**
   * Whenever the loop finishes, starting below `num` keys it stops at exactly
   * `num` keys; it keeps every key it had, and every entry has the generated
   * shape.
   */
  lemma {:induction false} FillEntriesReachesNum(num: nat, entries: map<Bytes, Value>, rng: Rng, fuel: nat)
    requires |entries| <= num
    requires forall k :: k in entries ==> EntryShaped(k, entries[k])
    requires FillEntries(num, entries, rng, fuel).Some?
    ensures var m := FillEntries(num, entries, rng, fuel).value.0;
      |m| == num && entries.Keys <= m.Keys && forall k :: k in m ==> EntryShaped(k, m[k])
    decreases fuel
  {
    if |entries| < num {
      var e := GenMutableDataEntry(rng);
      FillEntriesReachesNum(num, entries[e.0 := e.1], e.2, fuel - 1);
    }
  }

  /** One round of the filling loop, when it is not yet done and will finish. */
  lemma FillEntriesStep(num: nat, entries: map<Bytes, Value>, rng: Rng, fuel: nat)
    requires |entries| < num
    requires FillEntries(num, entries, rng, fuel).Some?
    ensures fuel > 0
    ensures var e := GenMutableDataEntry(rng);
      FillEntries(num, entries[e.0 := e.1], e.2, fuel - 1) == FillEntries(num, entries, rng, fuel)
  {
  }

  /**
   * `gen_mutable_data_entries(num, rng)`: draws entries until the map holds
   * `num` keys (a repeated key replaces the earlier value). The ghost `fuel`
   * and the precondition say the stream yields `num` distinct keys within
   * `fuel` rounds, which is what makes the loop terminate.
   */
  method GenMutableDataEntries(num: nat, rng: Rng, ghost fuel: nat)
    returns (entries: map<Bytes, Value>, rest: Rng)
    requires FillEntries(num, map[], rng, fuel).Some?
    ensures FillEntries(num, map[], rng, fuel) == Some((entries, rest))
    ensures |entries| == num
    ensures forall k :: k in entries ==> EntryShaped(k, entries[k])
  {
    ghost var target := FillEntries(num, map[], rng, fuel);
    entries, rest := map[], rng;
    ghost var left := fuel;
    while |entries| < num
      invariant FillEntries(num, entries, rest, left) == target
      decreases left
    {
      FillEntriesStep(num, entries, rest, left);
      var e := GenMutableDataEntry(rest);
      entries, rest := entries[e.0 := e.1], e.2;
      left := left - 1;
    }
    FillEntriesReachesNum(num, map[], rng, fuel);
  }

  /**
   * `gen_mutable_data(tag, num_entries, owner, rng)`: the entries are drawn
   * first, then the record's name; no permissions, owners exactly `{owner}`.
   */
  method GenMutableData(tag: U64, numEntries: nat, owner: PublicSignKey, rng: Rng, ghost fuel: nat)
    returns (data: MutableData, rest: Rng)
    requires FillEntries(numEntries, map[], rng, fuel).Some?
    ensures data.tag == tag && data.owners == {owner}
    ensures data.permissions == map[] && data.version == 0
    ensures |data.name| == XOR_NAME_LEN
    ensures |data.entries| == numEntries
    ensures forall k :: k in data.entries ==> EntryShaped(k, data.entries[k])
  {
    var entries, rng1 := GenMutableDataEntries(numEntries, rng, fuel);
    var (name, rng2) := GenVec(XOR_NAME_LEN, rng1);
    data := NewMutableData(name, tag, map[], entries, {owner});
    rest := rng2;
  }

  /**
   * The split of `count` actions into modifications and insertions, given
   * the record's key count and the value `modifyDraw` of
   * `gen_range(0, count + 1)`: as many modifications as drawn, but never more
   * than there are keys.
   */
  function SplitCount(count: nat, existing: nat, modifyDraw: nat): (r: (nat, nat))
    requires modifyDraw <= count
    ensures r.0 <= existing && r.0 <= modifyDraw && r.0 + r.1 == count
    ensures r.0 == modifyDraw || r.0 == existing
  {
    var modifyCount := if modifyDraw < existing then modifyDraw else existing;
    (modifyCount, count - modifyCount)
  }

  /** The number of modifications the action generator makes for this record and stream. */
  function ModifyCount(data: MutableData, count: nat, rng: Rng): nat
  {
    SplitCount(count, |data.entries|, GenRange(0, count + 1, rng).0).0
  }

  /**
   * The sampling oracle: `order` lists the record's keys, each once, in the
   * order a random sample takes them; a sample of size `m` is `order[..m]`.
   */
  predicate IsKeyOrder(order: seq<Bytes>, entries: map<Bytes, Value>)
  {
    Distinct(order) && |order| == |entries| && forall k :: k in order ==> k in entries
  }

  /** Versions the source can add one to without overflowing a `u64`. */
  predicate VersionsBelowMax(entries: map<Bytes, Value>)
  {
    forall k :: k in entries ==> entries[k].entryVersion < U64_LIMIT - 1
  }

  /** A delete or update that is valid against `entries`: an existing key, at its version + 1. */
  predicate ValidModify(entries: map<Bytes, Value>, key: Bytes, a: EntryAction)
  {
    !a.Ins? && key in entries && ActionVersion(a) == entries[key].entryVersion + 1
    && (a.Update? ==> |a.value.content| == ACTION_BYTES)
  }

  /** An insert that is valid against `entries`: an absent key, at version 0. */
  predicate ValidInsert(entries: map<Bytes, Value>, key: Bytes, a: EntryAction)
  {
    a.Ins? && key !in entries && a.value.entryVersion == 0 && |a.value.content| == ACTION_BYTES
  }

  /**
   * The first loop of `gen_mutable_data_entry_actions`: each of the first
   * `modifyCount` sampled keys is deleted or updated (a coin decides) at the
   * key's version + 1; an update carries 10 random bytes.
   */
  method GenModifyActions(data: MutableData, order: seq<Bytes>, modifyCount: nat, rng: Rng)
    returns (actions: map<Bytes, EntryAction>, rest: Rng)
    requires IsKeyOrder(order, data.entries) && modifyCount <= |order|
    requires VersionsBelowMax(data.entries)
    ensures forall k :: k in actions ==> ValidModify(data.entries, k, actions[k])
    ensures forall k :: k in actions <==> k in order[..modifyCount]
    ensures |actions| == modifyCount
    ensures rest.draws == rng.draws
  {
    actions, rest := map[], rng;
    for i := 0 to modifyCount
      invariant forall k :: k in actions ==> ValidModify(data.entries, k, actions[k])
      invariant forall k :: k in actions <==> k in order[..i]
      invariant |actions| == i
      invariant rest.draws == rng.draws
    {
      var key := order[i];
      assert key !in order[..i];
      var version := data.entries[key].entryVersion + 1;
      var (coin, rng2) := GenBool(rest);
      if coin {
        actions, rest := actions[key := Del(version)], rng2;
      } else {
        var (content, rng3) := GenVec(ACTION_BYTES, rng2);
        actions, rest := actions[key := Update(Value(content, version))], rng3;
      }
    }
  }

  /**
   * What the insert loop keeps: every action is valid, the modifications are
   * kept and are the only non-inserts, every candidate has 10 bytes, and the
   * inserted keys are exactly the candidates absent from the record.
   */
  ghost predicate InsertsSoFar(data: MutableData, modifications: map<Bytes, EntryAction>,
                               actions: map<Bytes, EntryAction>, candidates: seq<Bytes>)
  {
    && (forall k :: k in actions ==>
          ValidModify(data.entries, k, actions[k]) || ValidInsert(data.entries, k, actions[k]))
    && (forall k :: k in modifications ==> k in actions && actions[k] == modifications[k])
    && (forall k :: k in actions && !actions[k].Ins? ==> k in modifications)
    && (forall i :: 0 <= i < |candidates| ==> |candidates[i]| == ACTION_BYTES)
    && (forall k :: k in actions && actions[k].Ins? <==> k in candidates && k !in data.entries)
  }

  /** One round of the insert loop keeps `InsertsSoFar`. */
  lemma InsertsSoFarStep(data: MutableData, modifications: map<Bytes, EntryAction>,
                         actions: map<Bytes, EntryAction>, candidates: seq<Bytes>, key: Bytes, content: Bytes)
    requires forall k :: k in modifications ==> ValidModify(data.entries, k, modifications[k])
    requires InsertsSoFar(data, modifications, actions, candidates)
    requires |key| == ACTION_BYTES && |content| == ACTION_BYTES
    ensures key in data.entries ==> InsertsSoFar(data, modifications, actions, candidates + [key])
    ensures key !in data.entries ==>
      InsertsSoFar(data, modifications, actions[key := Ins(Value(content, 0))], candidates + [key])
  {
    assert forall k :: k in candidates + [key] <==> k in candidates || k == key;
  }

  /**
   * The second loop of `gen_mutable_data_entry_actions`: `insertCount`
   * candidate keys of 10 random bytes are drawn (the ghost `candidates`, in
   * draw order); each one absent from the record is inserted at version 0
   * with 10 random bytes, and the modifications already made stay as they are.
   */
  method AddInsertActions(data: MutableData, modifications: map<Bytes, EntryAction>, insertCount: nat, rng: Rng)
    returns (actions: map<Bytes, EntryAction>, rest: Rng, ghost candidates: seq<Bytes>)
    requires forall k :: k in modifications ==> ValidModify(data.entries, k, modifications[k])
    ensures forall k :: k in actions ==>
      ValidModify(data.entries, k, actions[k]) || ValidInsert(data.entries, k, actions[k])
    ensures forall k :: k in actions && !actions[k].Ins? <==> k in modifications
    ensures forall k :: k in modifications ==> k in actions && actions[k] == modifications[k]
    ensures |candidates| == insertCount
    ensures forall i :: 0 <= i < |candidates| ==> |candidates[i]| == ACTION_BYTES
    ensures forall k :: k in actions && actions[k].Ins? <==> k in candidates && k !in data.entries
    ensures |actions| <= |modifications| + insertCount
    ensures rest.draws == rng.draws
  {
    actions, rest := modifications, rng;
    candidates := [];
    for j := 0 to insertCount
      invariant InsertsSoFar(data, modifications, actions, candidates)
      invariant |candidates| == j
      invariant |actions| <= |modifications| + j
      invariant rest.draws == rng.draws
    {
      var (key, rng2) := GenVec(ACTION_BYTES, rest);
      rest := rng2;
      if key in data.entries {
        InsertsSoFarStep(data, modifications, actions, candidates, key, key);
        candidates := candidates + [key];
        continue;
      }
      var (content, rng3) := GenVec(ACTION_BYTES, rest);
      InsertsSoFarStep(data, modifications, actions, candidates, key, content);
      actions, rest := actions[key := Ins(Value(content, 0))], rng3;
      candidates := candidates + [key];
    }
  }

  /**
   * `gen_mutable_data_entry_actions(data, count, rng)`. Modifications go to
   * the first `ModifyCount` keys of the sample, each a delete or an update at
   * the key's version + 1; then `count - ModifyCount` candidate keys of 10
   * random bytes are drawn (the ghost `candidates`), and exactly those not
   * already in the record are inserted at version 0. Candidates that exist
   * are skipped and repeated candidates collapse, so the batch has at most
   * `count` actions.
   */
  method GenMutableDataEntryActions(data: MutableData, count: nat, rng: Rng, order: seq<Bytes>)
    returns (actions: map<Bytes, EntryAction>, rest: Rng, ghost candidates: seq<Bytes>)
    requires IsKeyOrder(order, data.entries)
    requires VersionsBelowMax(data.entries)
    ensures forall k :: k in actions ==>
      ValidModify(data.entries, k, actions[k]) || ValidInsert(data.entries, k, actions[k])
    ensures forall k :: k in actions && !actions[k].Ins? <==> k in order[..ModifyCount(data, count, rng)]
    ensures |candidates| == count - ModifyCount(data, count, rng)
    ensures forall i :: 0 <= i < |candidates| ==> |candidates[i]| == ACTION_BYTES
    ensures forall k :: k in actions && actions[k].Ins? <==> k in candidates && k !in data.entries
    ensures |actions| <= count
    ensures rest.draws == rng.draws
  {
    var (modifyDraw, rng1) := GenRange(0, count + 1, rng);
    var (modifyCount, insertCount) := SplitCount(count, |data.entries|, modifyDraw);
    var modifications, rng2 := GenModifyActions(data, order, modifyCount, rng1);
    actions, rest, candidates := AddInsertActions(data, modifications, insertCount, rng2);
  }

  /**
   * Against a record whose keys are all shorter than 10 bytes, as every record
   * `gen_mutable_data` builds, no candidate is skipped: each drawn candidate
   * ends up as an insert, so a positive insert count gives at least one insert.
   */
  lemma ShortKeysInsertEveryCandidate(data: MutableData, actions: map<Bytes, EntryAction>, candidates: seq<Bytes>)
    requires forall k :: k in data.entries ==> |k| < ACTION_BYTES
    requires forall i :: 0 <= i < |candidates| ==> |candidates[i]| == ACTION_BYTES
    requires forall k :: k in actions && actions[k].Ins? <==> k in candidates && k !in data.entries
    ensures forall i :: 0 <= i < |candidates| ==> candidates[i] in actions && actions[candidates[i]].Ins?
    ensures |candidates| > 0 ==> exists k :: k in actions && actions[k].Ins?
  {
    forall i | 0 <= i < |candidates|
      ensures candidates[i] in actions && actions[candidates[i]].Ins?
    {
      assert candidates[i] in candidates;
      assert candidates[i] !in data.entries;
    }
    if |candidates| > 0 {
      assert candidates[0] in actions && actions[candidates[0]].Ins?;
    }
  }

  /**
   * `gen_client_manager_authority(client_key)`: the manager group named by
   * routing's derivation `clientNameFromKey` (a hash, not modelled) of the key.
   */
  function GenClientManagerAuthority(clientKey: PublicSignKey, clientNameFromKey: PublicSignKey -> XorName)
    : (m: ClientManagerAuthority)
    ensures m.ToAuthority() == Authority.ClientManager(clientNameFromKey(clientKey))
  {
    ClientManagerAuthority(clientNameFromKey(clientKey))
  }

  /**
   * Two client keys get the same manager authority exactly when the
   * derivation gives them the same name.
   */
  lemma ManagerAuthorityPerKey(k1: PublicSignKey, k2: PublicSignKey, clientNameFromKey: PublicSignKey -> XorName)
    ensures GenClientManagerAuthority(k1, clientNameFromKey) == GenClientManagerAuthority(k2, clientNameFromKey)
      <==> clientNameFromKey(k1) == clientNameFromKey(k2)
  {
    if GenClientManagerAuthority(k1, clientNameFromKey) == GenClientManagerAuthority(k2, clientNameFromKey) {
      assert GenClientManagerAuthority(k1, clientNameFromKey).Name() == GenClientManagerAuthority(k2, clientNameFromKey).Name();
    }
  }
}
