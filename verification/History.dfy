/** Replay buffers of a stream: a bounded queue in memory, and the same thing kept as text in a Redis list. */
module History {
  import opened Rows
  import opened Text

  datatype Entry = Entry(id: int, payload: string)

  function After(lastId: int): Entry -> bool {
    (e: Entry) => e.id > lastId
  }

  function Payloads(entries: seq<Entry>): seq<string> {
    seq(|entries|, i requires 0 <= i < |entries| => entries[i].payload)
  }

  function Replayed(entries: seq<Entry>, lastId: int): seq<string> {
    Payloads(Where(entries, After(lastId)))
  }

  lemma ReplayedPush(entries: seq<Entry>, e: Entry, lastId: int)
    ensures Replayed(entries + [e], lastId) == Replayed(entries, lastId) + if e.id > lastId then [e.payload] else []
  {
    WhereAppend(entries, [e], After(lastId));
  }

  // ----- in memory

  class HistoryStore {
    const maxlen: nat
    var store: map<string, seq<Entry>>

    constructor (maxlen: nat := 100)
      ensures this.maxlen == maxlen && store == map[]
    {
      this.maxlen := maxlen;
      store := map[];
    }

    method Append(key: string, id: int, payload: string)
      modifies this
      ensures store == MemoryAppend(old(store), maxlen, key, Entry(id, payload))
    {
      var dq := (if key in store then store[key] else []) + [Entry(id, payload)];
      if |dq| > maxlen {
        dq := dq[|dq| - maxlen..];
      }
      store := store[key := dq];
    }

    method Replay(key: string, lastId: int) returns (r: seq<string>)
      ensures r == MemoryReplay(store, key, lastId)
    {
      if key !in store || store[key] == [] {
        return [];
      }
      r := Payloads(Where(store[key], After(lastId)));
    }

    method GetHistory(key: string) returns (r: seq<Entry>)
      ensures r == MemoryHistory(store, maxlen, key)
    {
      if key !in store {
        return [];
      }
      r := Last(store[key], maxlen);
    }

    method Exists(key: string) returns (r: bool)
      ensures r == MemoryExists(store, key)
    {
      r := key in store && |store[key]| > 0;
    }
  }

  function MemoryAppend(store: map<string, seq<Entry>>, maxlen: nat, key: string, e: Entry): map<string, seq<Entry>> {
    store[key := Last(Deque(store, key) + [e], maxlen)]
  }

  function Deque(store: map<string, seq<Entry>>, key: string): seq<Entry> {
    if key in store then store[key] else []
  }

  function MemoryReplay(store: map<string, seq<Entry>>, key: string, lastId: int): seq<string> {
    Replayed(Deque(store, key), lastId)
  }

  function MemoryHistory(store: map<string, seq<Entry>>, maxlen: nat, key: string): seq<Entry> {
    Last(Deque(store, key), maxlen)
  }

  predicate MemoryExists(store: map<string, seq<Entry>>, key: string) {
    Deque(store, key) != []
  }

  // ----- in Redis

  function Encode(e: Entry): string {
    Dec(e.id) + "|" + e.payload
  }

  /** An item that does not split or whose number does not parse is skipped by readers. */
  function Decode(item: string): Option<Entry> {
    match SplitFirst(item, '|')
    case None => None
    case Some((number, payload)) =>
      match ParseInt(number)
      case None => None
      case Some(id) => Some(Entry(id, payload))
  }

  lemma DecodeEncode(e: Entry)
    ensures Decode(Encode(e)) == Some(e)
  {
    DecIsClean(e.id, '|');
    assert Encode(e) == Dec(e.id) + ['|'] + e.payload;
    SplitJoined(Dec(e.id), '|', e.payload);
    ParseDec(e.id);
  }

  function ListKey(key: string): string {
    "history:" + key
  }

  /** The server's list trim from the head up to `stop`, counted from the tail when negative. */
  function TrimTo(items: seq<string>, stop: int): seq<string> {
    var end := if stop < 0 then |items| + stop else stop;
    if end < 0 then [] else if end + 1 >= |items| then items else items[..end + 1]
  }

  class RedisHistoryStore {
    const maxlen: nat
    var lists: map<string, seq<string>>

    constructor (maxlen: nat := 100)
      ensures this.maxlen == maxlen && lists == map[]
    {
      this.maxlen := maxlen;
      lists := map[];
    }

    method Append(key: string, id: int, payload: string)
      modifies this
      ensures lists == RedisAppend(old(lists), maxlen, key, Entry(id, payload))
    {
      var rk := ListKey(key);
      var items := [Dec(id) + "|" + payload] + if rk in lists then lists[rk] else [];
      items := TrimTo(items, maxlen - 1);
      lists := if items == [] then lists - {rk} else lists[rk := items];
    }

    method Replay(key: string, lastId: int) returns (r: seq<string>)
      ensures r == RedisReplay(lists, key, lastId)
    {
      var items := Items(lists, key);
      ReplayEnds(items, lastId);
      r := [];
      var i := |items|;
      while i > 0
        invariant 0 <= i <= |items|
        invariant r == NewestReplay(items, |items| - i, lastId)
      {
        i := i - 1;
        ReplayStep(items, i, lastId);
        match Decode(items[i])
        case None =>
        case Some(e) =>
          if e.id > lastId {
            r := r + [e.payload];
          }
      }
    }

    method GetHistory(key: string) returns (r: seq<Entry>)
      ensures r == RedisHistory(lists, maxlen, key)
    {
      var items := Items(lists, key);
      NewestEnds(items);
      r := [];
      var i := |items|;
      while i > 0
        invariant 0 <= i <= |items|
        invariant r == Last(Newest(items, |items| - i), maxlen)
      {
        i := i - 1;
        NewestLastStep(items, i, maxlen);
        match Decode(items[i])
        case None =>
        case Some(e) => r := Last(r + [e], maxlen);
      }
    }

    method Exists(key: string) returns (r: bool)
      ensures r == RedisExists(lists, key)
    {
      r := ListKey(key) in lists;
    }
  }

  function Items(lists: map<string, seq<string>>, key: string): seq<string> {
    if ListKey(key) in lists then lists[ListKey(key)] else []
  }

  function RedisAppend(lists: map<string, seq<string>>, maxlen: nat, key: string, e: Entry): map<string, seq<string>> {
    var items := TrimTo([Encode(e)] + Items(lists, key), maxlen - 1);
    if items == [] then lists - {ListKey(key)} else lists[ListKey(key) := items]
  }

  /** The readable entries, oldest first; a list is stored newest first. */
  function Chronicle(items: seq<string>): seq<Entry> {
    if items == [] then []
    else Chronicle(items[1..]) + match Decode(items[0]) case None => [] case Some(e) => [e]
  }

  /** Readable entries among the last `n` items. */
  function Newest(items: seq<string>, n: nat): seq<Entry>
    requires n <= |items|
  {
    Chronicle(items[|items| - n..])
  }

  lemma NewestStep(items: seq<string>, i: nat)
    requires i < |items|
    ensures Newest(items, |items| - i)
         == match Decode(items[i])
            case None => Newest(items, |items| - i - 1)
            case Some(e) => Newest(items, |items| - i - 1) + [e]
  {
    assert items[i..][1..] == items[i + 1..];
  }

  lemma NewestEnds(items: seq<string>)
    ensures Newest(items, 0) == [] && Newest(items, |items|) == Chronicle(items)
  {
    assert items[0..] == items;
  }

  lemma NewestLastStep(items: seq<string>, i: nat, n: nat)
    requires i < |items|
    ensures Last(Newest(items, |items| - i), n)
         == match Decode(items[i])
            case None => Last(Newest(items, |items| - i - 1), n)
            case Some(e) => Last(Last(Newest(items, |items| - i - 1), n) + [e], n)
  {
    NewestStep(items, i);
    match Decode(items[i])
    case None =>
    case Some(e) => LastOfLast(Newest(items, |items| - i - 1), [e], n);
  }

  /** What a replay makes of the last `n` items. */
  function NewestReplay(items: seq<string>, n: nat, lastId: int): seq<string>
    requires n <= |items|
  {
    Replayed(Newest(items, n), lastId)
  }

  lemma ReplayEnds(items: seq<string>, lastId: int)
    ensures NewestReplay(items, 0, lastId) == []
    ensures NewestReplay(items, |items|, lastId) == Replayed(Chronicle(items), lastId)
  {
    assert items[0..] == items;
  }

  lemma ReplayStep(items: seq<string>, i: nat, lastId: int)
    requires i < |items|
    ensures NewestReplay(items, |items| - i, lastId)
         == NewestReplay(items, |items| - i - 1, lastId)
            + match Decode(items[i])
              case None => []
              case Some(e) => if e.id > lastId then [e.payload] else []
  {
    NewestStep(items, i);
    match Decode(items[i])
    case None =>
    case Some(e) => ReplayedPush(Newest(items, |items| - i - 1), e, lastId);
  }

  function RedisReplay(lists: map<string, seq<string>>, key: string, lastId: int): seq<string> {
    Replayed(Chronicle(Items(lists, key)), lastId)
  }

  function RedisHistory(lists: map<string, seq<string>>, maxlen: nat, key: string): seq<Entry> {
    Last(Chronicle(Items(lists, key)), maxlen)
  }

  predicate RedisExists(lists: map<string, seq<string>>, key: string) {
    ListKey(key) in lists
  }

  // ----- the two stores over any sequence of appends

  datatype Write = Write(key: string, entry: Entry)

  function MemoryRun(writes: seq<Write>, maxlen: nat): map<string, seq<Entry>> {
    if writes == [] then map[]
    else
      var w := writes[|writes| - 1];
      MemoryAppend(MemoryRun(writes[..|writes| - 1], maxlen), maxlen, w.key, w.entry)
  }

  function RedisRun(writes: seq<Write>, maxlen: nat): map<string, seq<string>> {
    if writes == [] then map[]
    else
      var w := writes[|writes| - 1];
      RedisAppend(RedisRun(writes[..|writes| - 1], maxlen), maxlen, w.key, w.entry)
  }

  /** Everything written under `key`, oldest first. */
  function Written(writes: seq<Write>, key: string): seq<Entry> {
    if writes == [] then []
    else
      var w := writes[|writes| - 1];
      Written(writes[..|writes| - 1], key) + if w.key == key then [w.entry] else []
  }

  /** The encodings of `entries`, newest first. */
  function Encodings(entries: seq<Entry>): seq<string> {
    seq(|entries|, i requires 0 <= i < |entries| => Encode(entries[|entries| - 1 - i]))
  }

  lemma MemoryStep(memory: map<string, seq<Entry>>, all: seq<Entry>, maxlen: nat, w: Write, key: string)
    requires Deque(memory, key) == Last(all, maxlen)
    ensures Deque(MemoryAppend(memory, maxlen, w.key, w.entry), key)
         == Last(all + if w.key == key then [w.entry] else [], maxlen)
  {
    if w.key == key {
      LastOfLast(all, [w.entry], maxlen);
    } else {
      assert all + [] == all;
    }
  }

  lemma {:induction false} MemoryKeepsLast(writes: seq<Write>, maxlen: nat, key: string)
    ensures Deque(MemoryRun(writes, maxlen), key) == Last(Written(writes, key), maxlen)
  {
    if writes != [] {
      var before := writes[..|writes| - 1];
      MemoryKeepsLast(before, maxlen, key);
      MemoryStep(MemoryRun(before, maxlen), Written(before, key), maxlen, writes[|writes| - 1], key);
    }
  }

  lemma ChronicleStep(item: string, items: seq<string>, e: Entry)
    requires Decode(item) == Some(e)
    ensures Chronicle([item] + items) == Chronicle(items) + [e]
  {
    assert ([item] + items)[1..] == items;
  }

  lemma {:induction false} ChronicleOfEncodings(entries: seq<Entry>)
    ensures Chronicle(Encodings(entries)) == entries
  {
    if entries != [] {
      var front, e := entries[..|entries| - 1], entries[|entries| - 1];
      assert entries == front + [e];
      ChronicleOfEncodings(front);
      DecodeEncode(e);
      EncodingsPush(front, e);
      ChronicleStep(Encode(e), Encodings(front), e);
    }
  }

  lemma AppendToKey(lists: map<string, seq<string>>, maxlen: nat, key: string, e: Entry)
    ensures var items := TrimTo([Encode(e)] + Items(lists, key), maxlen - 1);
            var lists' := RedisAppend(lists, maxlen, key, e);
            Items(lists', key) == items && (RedisExists(lists', key) <==> items != [])
  {
  }

  lemma AppendToOther(lists: map<string, seq<string>>, maxlen: nat, other: string, e: Entry, key: string)
    requires other != key
    ensures var lists' := RedisAppend(lists, maxlen, other, e);
            Items(lists', key) == Items(lists, key) && (RedisExists(lists', key) <==> RedisExists(lists, key))
  {
    assert ListKey(key)[8..] == key && ListKey(other)[8..] == other;
  }

  lemma EncodingsPush(all: seq<Entry>, e: Entry)
    ensures Encodings(all + [e]) == [Encode(e)] + Encodings(all)
  {
  }

  lemma EncodingsOfLast(all: seq<Entry>, n: nat)
    ensures Encodings(Last(all, n)) == if |all| <= n then Encodings(all) else Encodings(all)[..n]
  {
  }

  lemma PushEncoding(all: seq<Entry>, e: Entry, maxlen: nat)
    ensures maxlen >= 1 ==>
              TrimTo([Encode(e)] + Encodings(Last(all, maxlen)), maxlen - 1) == Encodings(Last(all + [e], maxlen))
    ensures TrimTo([Encode(e)] + Encodings(all), -1) == Encodings(all + [e])
  {
    EncodingsPush(all, e);
    EncodingsOfLast(all, maxlen);
    EncodingsOfLast(all + [e], maxlen);
  }

  /** The list holds the encodings of the newest entries, and exists only if there are any. */
  predicate KeepsLast(lists: map<string, seq<string>>, all: seq<Entry>, maxlen: nat, key: string) {
    && Items(lists, key) == Encodings(Last(all, maxlen))
    && (RedisExists(lists, key) <==> all != [])
  }

  lemma OwnAppendKeepsLast(lists: map<string, seq<string>>, all: seq<Entry>, maxlen: nat, key: string, e: Entry)
    requires maxlen >= 1 && KeepsLast(lists, all, maxlen, key)
    ensures KeepsLast(RedisAppend(lists, maxlen, key, e), all + [e], maxlen, key)
  {
    AppendToKey(lists, maxlen, key, e);
    PushEncoding(all, e, maxlen);
    assert |Encodings(Last(all + [e], maxlen))| >= 1;
  }

  /** With room for at least one entry, the list always holds the encodings of the newest entries. */
  lemma {:induction false} RedisKeepsLast(writes: seq<Write>, maxlen: nat, key: string)
    requires maxlen >= 1
    ensures KeepsLast(RedisRun(writes, maxlen), Written(writes, key), maxlen, key)
  {
    if writes != [] {
      var before, w := writes[..|writes| - 1], writes[|writes| - 1];
      RedisKeepsLast(before, maxlen, key);
      var lists := RedisRun(before, maxlen);
      if w.key == key {
        OwnAppendKeepsLast(lists, Written(before, key), maxlen, key, w.entry);
      } else {
        AppendToOther(lists, maxlen, w.key, w.entry, key);
      }
    }
  }

  /** The list holds the encodings of all entries. */
  predicate KeepsAll(lists: map<string, seq<string>>, all: seq<Entry>, key: string) {
    && Items(lists, key) == Encodings(all)
    && (RedisExists(lists, key) <==> all != [])
  }

  lemma OtherAppendKeepsAll(lists: map<string, seq<string>>, all: seq<Entry>, key: string, w: Write)
    requires KeepsAll(lists, all, key) && w.key != key
    ensures KeepsAll(RedisAppend(lists, 0, w.key, w.entry), all + [], key)
  {
    AppendToOther(lists, 0, w.key, w.entry, key);
    assert all + [] == all;
  }

  lemma OwnAppendKeepsAll(lists: map<string, seq<string>>, all: seq<Entry>, key: string, e: Entry)
    requires KeepsAll(lists, all, key)
    ensures KeepsAll(RedisAppend(lists, 0, key, e), all + [e], key)
  {
    AppendToKey(lists, 0, key, e);
    PushEncoding(all, e, 0);
    assert |Encodings(all + [e])| >= 1;
  }

  /** A list bounded by zero is not bounded at all: trimming to the last element keeps everything. */
  lemma {:induction false} RedisUnboundedAtZero(writes: seq<Write>, key: string)
    ensures KeepsAll(RedisRun(writes, 0), Written(writes, key), key)
  {
    if writes != [] {
      var before, w := writes[..|writes| - 1], writes[|writes| - 1];
      RedisUnboundedAtZero(before, key);
      if w.key == key {
        OwnAppendKeepsAll(RedisRun(before, 0), Written(before, key), key, w.entry);
      } else {
        OtherAppendKeepsAll(RedisRun(before, 0), Written(before, key), key, w);
      }
    }
  }

  ghost predicate AgreeOn(memory: map<string, seq<Entry>>, lists: map<string, seq<string>>, maxlen: nat, key: string) {
    && (forall lastId :: MemoryReplay(memory, key, lastId) == RedisReplay(lists, key, lastId))
    && MemoryHistory(memory, maxlen, key) == RedisHistory(lists, maxlen, key)
    && (MemoryExists(memory, key) <==> RedisExists(lists, key))
  }

  /** No reader can tell the stores apart. */
  ghost predicate StoresAgree(memory: map<string, seq<Entry>>, lists: map<string, seq<string>>, maxlen: nat) {
    forall key :: AgreeOn(memory, lists, maxlen, key)
  }

  /** After any appends with any payloads the stores are indistinguishable, unless the bound is zero and something was
      written. */
  lemma RedisRefinesMemory(writes: seq<Write>, maxlen: nat)
    ensures StoresAgree(MemoryRun(writes, maxlen), RedisRun(writes, maxlen), maxlen) <==> maxlen >= 1 || writes == []
  {
    var memory, lists := MemoryRun(writes, maxlen), RedisRun(writes, maxlen);
    if maxlen >= 1 {
      forall key ensures AgreeOn(memory, lists, maxlen, key) {
        RedisKeepsLast(writes, maxlen, key);
        MemoryKeepsLast(writes, maxlen, key);
        ChronicleOfEncodings(Last(Written(writes, key), maxlen));
      }
    } else if writes != [] {
      var key := writes[|writes| - 1].key;
      RedisUnboundedAtZero(writes, key);
      MemoryKeepsLast(writes, 0, key);
      assert !AgreeOn(memory, lists, maxlen, key);
    }
  }

  /** What readers of the memory store get after any appends, told from what was written: the newest `maxlen` entries;
      of those the payloads with a larger id, in order; and existence exactly if there are any. */
  lemma ReadersSeeNewest(writes: seq<Write>, maxlen: nat, key: string, lastId: int)
    ensures var memory, newest := MemoryRun(writes, maxlen), Last(Written(writes, key), maxlen);
            && MemoryHistory(memory, maxlen, key) == newest
            && (MemoryExists(memory, key) <==> maxlen >= 1 && Written(writes, key) != [])
            && MemoryReplay(memory, key, lastId) == Payloads(Where(newest, (e: Entry) => e.id > lastId))
  {
    MemoryKeepsLast(writes, maxlen, key);
    WhereSame(Last(Written(writes, key), maxlen), After(lastId), (e: Entry) => e.id > lastId);
  }

  // ----- replay

  predicate Increasing(entries: seq<Entry>) {
    forall i, j :: 0 <= i < j < |entries| ==> entries[i].id < entries[j].id
  }

  /** Of a chronicle with increasing ids, what lies after the `j`-th id is what comes after the `j`-th entry. */
  lemma AfterIsSuffix(entries: seq<Entry>, lastId: int, k: nat)
    requires k <= |entries|
    requires forall i :: 0 <= i < k ==> entries[i].id <= lastId
    requires forall i :: k <= i < |entries| ==> entries[i].id > lastId
    ensures Where(entries, After(lastId)) == entries[k..]
  {
    assert entries == entries[..k] + entries[k..];
    WhereAppend(entries[..k], entries[k..], After(lastId));
    CountNone(entries[..k], After(lastId));
    WhereAll(entries[k..], After(lastId));
  }

  lemma ReplayOfLast(all: seq<Entry>, maxlen: nat, j: nat)
    requires Increasing(all) && j < |all|
    ensures Replayed(Last(all, maxlen), all[j].id) == Payloads(Last(all[j + 1..], maxlen))
  {
    var kept := Last(all, maxlen);
    var dropped := |all| - |kept|;
    var k := if j + 1 <= dropped then 0 else j + 1 - dropped;
    forall i | 0 <= i < |kept| ensures kept[i].id > all[j].id <==> i >= k {
      assert kept[i] == all[dropped + i];
    }
    AfterIsSuffix(kept, all[j].id, k);
    SuffixOfLast(all, maxlen, j);
  }

  lemma SuffixOfLast<T>(all: seq<T>, maxlen: nat, j: nat)
    requires j < |all|
    ensures var kept := Last(all, maxlen);
            var dropped := |all| - |kept|;
            kept[if j + 1 <= dropped then 0 else j + 1 - dropped..] == Last(all[j + 1..], maxlen)
  {
  }

  lemma PayloadsInTwoParts(entries: seq<Entry>, k: nat)
    requires k <= |entries|
    ensures Payloads(entries[..k]) + Payloads(entries[k..]) == Payloads(entries)
  {
  }

  /** Reconnecting after entry `j` replays exactly the entries after it, or the last `maxlen` of them if more
      followed. */
  lemma ReplayAfterCut(writes: seq<Write>, maxlen: nat, key: string, j: nat)
    requires Increasing(Written(writes, key)) && j < |Written(writes, key)|
    ensures var all := Written(writes, key);
            var replayed := MemoryReplay(MemoryRun(writes, maxlen), key, all[j].id);
            && replayed == Payloads(Last(all[j + 1..], maxlen))
            && (|all| - (j + 1) <= maxlen ==> Payloads(all[..j + 1]) + replayed == Payloads(all))
  {
    var all := Written(writes, key);
    MemoryKeepsLast(writes, maxlen, key);
    ReplayOfLast(all, maxlen, j);
    PayloadsInTwoParts(all, j + 1);
  }
}
