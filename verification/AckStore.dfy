/**
 * The store of resolved blockers, agent-acks.json (src/apex_router/agent_inbox.py, `ack_read` and
 * `ack_write`): at most 2000 ids, at most 200 keys each, and never too large to be read again.
 *
 * JSON is kept as a value together with the length of its compact ASCII text; a number carries the
 * length of its own text. A dict is an ordered list of members with distinct names.
 */
module AckStore {
  import opened Base
  import opened Sorting

  const IDS_MAX: nat := 2000
  const KEYS_MAX: nat := 200
  const READ_CAP: nat := 4 * 1024 * 1024
  const WRITE_CAP: nat := 3 * 1024 * 1024
  const SHOWN_MAX: nat := 20

  datatype Stamp = Stamp(value: real, len: nat)

  datatype Json = Null | Bool(b: bool) | Num(stamp: Stamp) | Str(text: string) | Arr(items: seq<Json>) | Obj(members: seq<Member>)

  datatype Member = Member(name: string, value: Json)

  /** A `verdict` or `state` field: not there, there as None, or a text. */
  datatype Field = Absent | Nil | Text(text: string)

  datatype Entry = Entry(keys: seq<string>, all: bool, at: Stamp, verdict: Field, state: Field)

  datatype Item = Item(id: string, entry: Entry)

  /** `size` is the length of the file in bytes. */
  datatype File = NoFile | Corrupt | Holds(doc: Json, size: nat)

  // ---------------------------------------------------------------- the two patterns

  predicate Alnum(c: char) {
    'A' <= c <= 'Z' || 'a' <= c <= 'z' || '0' <= c <= '9'
  }

  predicate IdOk(s: string) {
    1 <= |s| <= 128 && Alnum(s[0]) && forall c :: c in s ==> Alnum(c) || c == '_' || c == '-'
  }

  predicate KeyOk(s: string) {
    |s| == 16 && forall c :: c in s ==> '0' <= c <= '9' || 'a' <= c <= 'f'
  }

  // ---------------------------------------------------------------- lengths of compact JSON text

  /** Characters outside printable ASCII are escaped, those beyond the basic plane as two surrogates. */
  function CharLen(c: char): nat {
    if c == '\"' || c == '\\' || c == '\n' || c == '\r' || c == '\t' || c == '\U{8}' || c == '\U{c}' then 2
    else if ' ' <= c <= '~' then 1
    else if c as int < 0x1_0000 then 6
    else 12
  }

  function CharsLen(s: string): nat {
    if s == "" then 0 else CharLen(s[0]) + CharsLen(s[1..])
  }

  function StrLen(s: string): nat {
    2 + CharsLen(s)
  }

  function Commas(n: nat): nat {
    if n == 0 then 0 else n - 1
  }

  function JsonLen(j: Json): nat
    decreases j
  {
    match j
    case Null => 4
    case Bool(b) => if b then 4 else 5
    case Num(stamp) => stamp.len
    case Str(text) => StrLen(text)
    case Arr(items) => 2 + ItemsLen(items) + Commas(|items|)
    case Obj(members) => 2 + MembersLen(members) + Commas(|members|)
  }

  function ItemsLen(items: seq<Json>): nat
    decreases items
  {
    if items == [] then 0 else JsonLen(items[0]) + ItemsLen(items[1..])
  }

  function MembersLen(members: seq<Member>): nat
    decreases members
  {
    if members == [] then 0 else StrLen(members[0].name) + 1 + JsonLen(members[0].value) + MembersLen(members[1..])
  }

  // ---------------------------------------------------------------- what is written

  function KeyItems(keys: seq<string>): seq<Json> {
    if keys == [] then [] else [Str(keys[0])] + KeyItems(keys[1..])
  }

  function FieldMembers(name: string, f: Field): seq<Member> {
    match f
    case Absent => []
    case Nil => [Member(name, Null)]
    case Text(t) => [Member(name, Str(t))]
  }

  function EntryMembers(e: Entry): seq<Member> {
    [Member("keys", Arr(KeyItems(e.keys)))] + [Member("all", Bool(e.all))] + [Member("at", Num(e.at))]
    + FieldMembers("verdict", e.verdict) + FieldMembers("state", e.state)
  }

  function ItemMember(x: Item): Member {
    Member(x.id, Obj(EntryMembers(x.entry)))
  }

  function DocMembers(cur: seq<Item>): seq<Member> {
    if cur == [] then [] else [ItemMember(cur[0])] + DocMembers(cur[1..])
  }

  function Doc(cur: seq<Item>): Json {
    Obj(DocMembers(cur))
  }

  function Saved(cur: seq<Item>): File {
    Holds(Doc(cur), JsonLen(Doc(cur)))
  }

  // ---------------------------------------------------------------- what is read

  function Get(members: seq<Member>, name: string): Option<Json> {
    if members == [] then None
    else if members[0].name == name then Some(members[0].value)
    else Get(members[1..], name)
  }

  function Last<T>(xs: seq<T>, n: nat): seq<T> {
    if |xs| <= n then xs else xs[|xs| - n..]
  }

  function KeysOf(items: seq<Json>): seq<string> {
    if items == [] then []
    else (if items[0].Str? && KeyOk(items[0].text) then [items[0].text] else []) + KeysOf(items[1..])
  }

  function ReadKeys(j: Option<Json>): seq<string> {
    if j.Some? && j.value.Arr? then Last(KeysOf(j.value.items), KEYS_MAX) else []
  }

  function ReadStamp(j: Option<Json>): Stamp {
    if j.Some? && j.value.Num? then j.value.stamp else Stamp(0.0, 1)
  }

  function ReadField(j: Option<Json>): Field {
    if j.Some? && j.value.Str? && |j.value.text| <= SHOWN_MAX then Text(j.value.text) else Absent
  }

  function ReadEntry(ms: seq<Member>): Entry {
    Entry(ReadKeys(Get(ms, "keys")), Get(ms, "all") == Some(Bool(true)), ReadStamp(Get(ms, "at")),
          ReadField(Get(ms, "verdict")), ReadField(Get(ms, "state")))
  }

  function ReadDoc(ms: seq<Member>): seq<Item> {
    if ms == [] then []
    else
      (if IdOk(ms[0].name) && ms[0].value.Obj? then [Item(ms[0].name, ReadEntry(ms[0].value.members))] else [])
      + ReadDoc(ms[1..])
  }

  /** `ack_read`: the acks, or None for a file that is corrupt, too large or not a dict. */
  function AckRead(f: File): Option<seq<Item>> {
    match f
    case NoFile => Some([])
    case Corrupt => None
    case Holds(doc, size) => if size <= READ_CAP && doc.Obj? then Some(ReadDoc(doc.members)) else None
  }

  // ---------------------------------------------------------------- the store as a map

  ghost predicate DistinctIds(cur: seq<Item>) {
    forall i, j :: 0 <= i < j < |cur| ==> cur[i].id != cur[j].id
  }

  ghost predicate DistinctNames(ms: seq<Member>) {
    forall i, j :: 0 <= i < j < |ms| ==> ms[i].name != ms[j].name
  }

  function Lookup(cur: seq<Item>, id: string): Option<Entry> {
    if cur == [] then None else if cur[0].id == id then Some(cur[0].entry) else Lookup(cur[1..], id)
  }

  function Without(cur: seq<Item>, id: string): (r: seq<Item>)
    ensures |r| <= |cur|
    ensures forall x :: x in r <==> x in cur && x.id != id
  {
    if cur == [] then [] else if cur[0].id == id then Without(cur[1..], id) else [cur[0]] + Without(cur[1..], id)
  }

  // ---------------------------------------------------------------- ack_write

  /** The known keys, then each new one that has the form of a key, once. */
  function Merge(ks: seq<string>, keys: seq<string>): seq<string>
    decreases |keys|
  {
    if keys == [] then ks
    else Merge(if KeyOk(keys[0]) && keys[0] !in ks then ks + [keys[0]] else ks, keys[1..])
  }

  function NewEntry(known: Option<Entry>, keys: seq<string>, all: bool, verdict: Field, state: Field, now: Stamp): Entry {
    var e := if known.Some? then known.value else Entry([], false, now, Absent, Absent);
    Entry(Last(Merge(e.keys, keys), KEYS_MAX), e.all || all, now,
          if all then verdict else e.verdict, if all then state else e.state)
  }

  /** Oldest first; of two equally old ids the one being written is the younger. */
  function ByAge(iid: string): (Item, Item) -> bool {
    (a: Item, b: Item) => a.entry.at.value < b.entry.at.value
                          || (a.entry.at.value == b.entry.at.value && (a.id == iid ==> b.id == iid))
  }

  function ByAgeAndId(): (Item, Item) -> bool {
    (a: Item, b: Item) => a.entry.at.value < b.entry.at.value || (a.entry.at.value == b.entry.at.value && StrLe(a.id, b.id))
  }

  /** The count limit; the id being written stays even if the clock went back. */
  function Trim(cur: seq<Item>, own: Item): seq<Item> {
    if |cur| <= IDS_MAX then cur
    else
      var keep := Last(Sort(cur, ByAge(own.id)), IDS_MAX);
      if own in keep then keep else keep[1..] + [own]
  }

  /** The size limit: drop the oldest, keeping count of the length by subtraction only. */
  function Shrink(cur: seq<Item>, order: seq<Item>, iid: string, size: int): seq<Item>
    decreases |order|
  {
    if order == [] || size <= WRITE_CAP then cur
    else if order[0].id == iid then Shrink(cur, order[1..], iid, size)
    else Shrink(Without(cur, order[0].id), order[1..], iid, size - (JsonLen(Doc([order[0]])) - 1))
  }

  function Fit(cur: seq<Item>, iid: string): seq<Item> {
    Shrink(cur, Sort(cur, ByAgeAndId()), iid, JsonLen(Doc(cur)))
  }

  function Written(cur: seq<Item>, own: Item): seq<Item> {
    Fit(Trim(Without(cur, own.id) + [own], own), own.id)
  }

  datatype Op =
    | Resolve(iid: string, keys: seq<string>, all: bool, verdict: Field, state: Field, now: Stamp)
    | Undo(iid: string)

  function OwnItem(cur: seq<Item>, op: Op): Item
    requires op.Resolve?
  {
    Item(op.iid, NewEntry(Lookup(cur, op.iid), op.keys, op.all, op.verdict, op.state, op.now))
  }

  /** The call's result and the file after it. */
  function AfterWrite(f: File, op: Op): (r: (bool, File)) {
    if !IdOk(op.iid) || AckRead(f).None? then (false, f)
    else
      var cur := AckRead(f).value;
      match op
      case Undo(iid) => (true, if Lookup(cur, iid).None? then f else Saved(Without(cur, iid)))
      case Resolve(_, _, _, _, _, _) => (true, Saved(Written(cur, OwnItem(cur, op))))
  }

  // ---------------------------------------------------------------- lengths

  function ItemLen(x: Item): nat {
    MembersLen([ItemMember(x)])
  }

  function ItemsTotal(cur: seq<Item>): nat {
    if cur == [] then 0 else ItemLen(cur[0]) + ItemsTotal(cur[1..])
  }

  lemma {:induction false} DocLength(cur: seq<Item>)
    ensures JsonLen(Doc(cur)) == 2 + ItemsTotal(cur) + Commas(|cur|)
  {
    DocMembersLength(cur);
  }

  lemma {:induction false} DocMembersLength(cur: seq<Item>)
    ensures MembersLen(DocMembers(cur)) == ItemsTotal(cur) && |DocMembers(cur)| == |cur|
  {
    if cur != [] {
      DocMembersLength(cur[1..]);
      assert DocMembers(cur)[1..] == DocMembers(cur[1..]);
      assert MembersLen([ItemMember(cur[0])][1..]) == 0;
    }
  }

  lemma {:induction false} WithoutTotal(cur: seq<Item>, x: Item)
    requires DistinctIds(cur) && x in cur
    ensures DistinctIds(Without(cur, x.id))
    ensures ItemsTotal(Without(cur, x.id)) == ItemsTotal(cur) - ItemLen(x)
    ensures |Without(cur, x.id)| == |cur| - 1
  {
    if cur[0].id == x.id {
      assert cur[0] == x by {
        var i :| 0 <= i < |cur| && cur[i] == x;
        assert i == 0;
      }
      WithoutAbsent(cur[1..], x.id);
    } else {
      assert x in cur[1..];
      WithoutTotal(cur[1..], x);
      WithoutDistinct(cur, x.id);
    }
  }

  lemma {:induction false} WithoutAbsent(cur: seq<Item>, id: string)
    requires forall x :: x in cur ==> x.id != id
    ensures Without(cur, id) == cur
  {
    if cur != [] {
      assert cur[0] in cur;
      WithoutAbsent(cur[1..], id);
    }
  }

  lemma {:induction false} WithoutDistinct(cur: seq<Item>, id: string)
    requires DistinctIds(cur)
    ensures DistinctIds(Without(cur, id))
  {
    if cur != [] {
      WithoutDistinct(cur[1..], id);
      var r := Without(cur[1..], id);
      if cur[0].id != id {
        forall j | 0 <= j < |r| ensures r[j].id != cur[0].id {
          assert r[j] in cur[1..];
          var k :| 0 <= k < |cur[1..]| && cur[1..][k] == r[j];
          assert cur[k + 1] == r[j];
        }
      }
    }
  }

  /** The subtraction made for one dropped id is exactly what its member and one comma take up. */
  lemma DropKeepsCount(cur: seq<Item>, x: Item)
    requires DistinctIds(cur) && x in cur && 2 <= |cur|
    ensures JsonLen(Doc(Without(cur, x.id))) == JsonLen(Doc(cur)) - (JsonLen(Doc([x])) - 1)
  {
    DocLength(cur);
    DocLength(Without(cur, x.id));
    DocLength([x]);
    WithoutTotal(cur, x);
    assert [x][1..] == [];
  }

  // ---------------------------------------------------------------- what a write leaves

  lemma {:induction false} InsertDistinct(ys: seq<Item>, x: Item, le: (Item, Item) -> bool)
    requires DistinctIds(ys) && forall y :: y in ys ==> y.id != x.id
    ensures DistinctIds(Insert(ys, x, le))
    ensures forall y :: y in Insert(ys, x, le) <==> y in ys || y == x
  {
    if ys != [] && !le(ys[|ys| - 1], x) {
      var n := |ys| - 1;
      InsertDistinct(ys[..n], x, le);
      var zs := Insert(ys[..n], x, le);
      assert forall y :: y in ys <==> y in ys[..n] || y == ys[n];
      forall i | 0 <= i < |zs| ensures zs[i].id != ys[n].id {
        assert zs[i] in zs;
      }
    } else if ys != [] {
      assert forall y :: y in ys + [x] <==> y in ys || y == x;
    }
  }

  lemma {:induction false} SortDistinct(xs: seq<Item>, le: (Item, Item) -> bool)
    requires DistinctIds(xs)
    ensures DistinctIds(Sort(xs, le))
    ensures forall x :: x in Sort(xs, le) <==> x in xs
  {
    if xs != [] {
      var n := |xs| - 1;
      SortDistinct(xs[..n], le);
      InsertDistinct(Sort(xs[..n], le), xs[n], le);
    }
  }

  /** Dropping goes by age: whatever is kept besides `own` is no older than what was dropped. */
  ghost predicate OldestDropped(cur: seq<Item>, r: seq<Item>, own: Item) {
    forall d, k :: d in cur && d !in r && k in r && k != own ==> d.entry.at.value <= k.entry.at.value
  }

  ghost predicate Subset(r: seq<Item>, cur: seq<Item>) {
    forall x :: x in r ==> x in cur
  }

  ghost predicate AgeOrdered(order: seq<Item>) {
    forall i, j :: 0 <= i < j < |order| ==> order[i].entry.at.value <= order[j].entry.at.value
  }

  lemma SortedByAge(cur: seq<Item>, iid: string)
    requires DistinctIds(cur)
    ensures var order := Sort(cur, ByAge(iid));
      AgeOrdered(order) && DistinctIds(order) && |order| == |cur| && forall x :: x in order <==> x in cur
  {
    SortDistinct(cur, ByAge(iid));
    SortOrdered(cur, ByAge(iid));
    SortPermutes(cur, ByAge(iid));
    var le, order := ByAge(iid), Sort(cur, ByAge(iid));
    forall i, j | 0 <= i < j < |order| ensures order[i].entry.at.value <= order[j].entry.at.value {
      assert le(order[i], order[j]);
    }
  }

  lemma SortedByAgeAndId(cur: seq<Item>)
    requires DistinctIds(cur)
    ensures var order := Sort(cur, ByAgeAndId());
      AgeOrdered(order) && DistinctIds(order) && forall x :: x in order <==> x in cur
  {
    var le, order := ByAgeAndId(), Sort(cur, ByAgeAndId());
    SortDistinct(cur, le);
    assert TotalOrder(le) by { StrOrder(); }
    SortOrdered(cur, le);
    forall i, j | 0 <= i < j < |order| ensures order[i].entry.at.value <= order[j].entry.at.value {
      assert le(order[i], order[j]);
    }
  }

  lemma KeepsTheNewest(cur: seq<Item>, order: seq<Item>, from: nat, r: seq<Item>, own: Item)
    requires AgeOrdered(order) && from <= |order| && (forall x :: x in cur ==> x in order)
    requires forall x :: x in order[from..] ==> x in r
    requires forall x :: x in r && x != own ==> x in order[from..]
    ensures OldestDropped(cur, r, own)
  {
    forall i | from <= i < |order| ensures order[i] in r {
      assert order[from..][i - from] == order[i];
    }
    forall d, k | d in cur && d !in r && k in r && k != own ensures d.entry.at.value <= k.entry.at.value {
      var i :| 0 <= i < |order| && order[i] == d;
      var j :| 0 <= j < |order[from..]| && order[from..][j] == k;
    }
  }

  /** What every eviction guarantees of the store it leaves. */
  ghost predicate Evicted(cur: seq<Item>, r: seq<Item>, own: Item) {
    DistinctIds(r) && |r| <= |cur| && own in r && Subset(r, cur)
  }

  lemma Tail(order: seq<Item>, n: nat)
    requires DistinctIds(order) && n <= |order|
    ensures DistinctIds(order[n..]) && Subset(order[n..], order)
  {
  }

  lemma TailAndOwn(cur: seq<Item>, order: seq<Item>, n: nat, own: Item)
    requires DistinctIds(cur) && own in cur && Subset(order, cur) && DistinctIds(order) && n < |order| && own !in order[n..]
    ensures DistinctIds(order[n + 1..] + [own]) && Subset(order[n + 1..] + [own], cur)
  {
    var rest := order[n + 1..];
    Tail(order, n + 1);
    forall i | 0 <= i < |rest| ensures rest[i].id != own.id {
      assert order[n..][i + 1] == rest[i] && rest[i] in cur;
      SameIdIn(cur, rest[i], own);
    }
  }

  lemma NewestKept(cur: seq<Item>, order: seq<Item>, n: nat, own: Item)
    requires DistinctIds(cur) && DistinctIds(order) && AgeOrdered(order) && own in cur
    requires |order| == |cur| && n < |order| && forall x :: x in order <==> x in cur
    ensures own in order[n..] ==> Evicted(cur, order[n..], own) && OldestDropped(cur, order[n..], own)
    ensures own !in order[n..] ==> Evicted(cur, order[n + 1..] + [own], own) && OldestDropped(cur, order[n + 1..] + [own], own)
  {
    Tail(order, n);
    if own in order[n..] {
      KeepsTheNewest(cur, order, n, order[n..], own);
    } else {
      TailAndOwn(cur, order, n, own);
      KeepsTheNewest(cur, order, n + 1, order[n + 1..] + [own], own);
    }
  }

  lemma TrimKeeps(cur: seq<Item>, own: Item)
    requires DistinctIds(cur) && own in cur
    ensures Evicted(cur, Trim(cur, own), own) && |Trim(cur, own)| <= IDS_MAX && OldestDropped(cur, Trim(cur, own), own)
  {
    if |cur| > IDS_MAX {
      SortedByAge(cur, own.id);
      NewestStore(cur, Sort(cur, ByAge(own.id)), own);
    } else {
      NothingDropped(cur, own);
    }
  }

  lemma NewestStore(cur: seq<Item>, order: seq<Item>, own: Item)
    requires DistinctIds(cur) && DistinctIds(order) && AgeOrdered(order) && own in cur
    requires |order| == |cur| > IDS_MAX && forall x :: x in order <==> x in cur
    ensures var keep := Last(order, IDS_MAX); var r := if own in keep then keep else keep[1..] + [own];
      Evicted(cur, r, own) && |r| <= IDS_MAX && OldestDropped(cur, r, own)
  {
    var n := |cur| - IDS_MAX;
    NewestKept(cur, order, n, own);
    assert Last(order, IDS_MAX) == order[n..];
    assert order[n..][1..] == order[n + 1..];
  }

  ghost predicate Fits(r: seq<Item>, own: Item) {
    JsonLen(Doc(r)) <= WRITE_CAP || r == [own]
  }

  /** The queue of an eviction: every item but `own` is still in it. */
  ghost predicate Queue(cur: seq<Item>, order: seq<Item>, own: Item) {
    && DistinctIds(cur) && DistinctIds(order) && own in cur && Subset(order, cur)
    && forall x :: x in cur && x != own ==> x in order
  }

  lemma QueueStep(cur: seq<Item>, order: seq<Item>, own: Item)
    requires Queue(cur, order, own) && order != []
    ensures order[0] in cur
    ensures order[0].id == own.id ==> Queue(cur, order[1..], own)
    ensures order[0].id != own.id ==> Queue(Without(cur, order[0].id), order[1..], own) && 2 <= |cur|
  {
    assert order[0] in order;
    Tail(order, 1);
    SameIdIn(cur, order[0], own);
    assert forall y :: y in order ==> y == order[0] || y in order[1..];
    if order[0].id != own.id {
      TwoItems(cur, order[0], own);
      WithoutDistinct(cur, order[0].id);
      TailInRest(cur, order);
    }
  }

  /** One turn of the loop: what is left and its size. */
  lemma ShrinkOnce(cur: seq<Item>, order: seq<Item>, id: string, size: int) returns (rest: seq<Item>, size': int)
    requires order != [] && size > WRITE_CAP
    ensures rest == if order[0].id == id then cur else Without(cur, order[0].id)
    ensures size' == if order[0].id == id then size else size - (JsonLen(Doc([order[0]])) - 1)
    ensures Shrink(cur, order, id, size) == Shrink(rest, order[1..], id, size')
  {
    if order[0].id == id {
      rest, size' := cur, size;
    } else {
      rest, size' := Without(cur, order[0].id), size - (JsonLen(Doc([order[0]])) - 1);
    }
  }

  lemma {:induction false} ShrinkEvicts(cur: seq<Item>, order: seq<Item>, own: Item, size: int)
    requires Queue(cur, order, own)
    ensures Evicted(cur, Shrink(cur, order, own.id, size), own)
    decreases |order|
  {
    if order != [] && size > WRITE_CAP {
      var rest, size' := ShrinkOnce(cur, order, own.id, size);
      QueueStep(cur, order, own);
      ShrinkEvicts(rest, order[1..], own, size');
      if order[0].id != own.id {
        EvictedBefore(cur, order[0].id, Shrink(rest, order[1..], own.id, size'), own);
      }
    }
  }

  lemma EvictedBefore(cur: seq<Item>, id: string, r: seq<Item>, own: Item)
    requires Evicted(Without(cur, id), r, own)
    ensures Evicted(cur, r, own)
  {
  }

  lemma {:induction false} ShrinkFits(cur: seq<Item>, order: seq<Item>, own: Item, size: int)
    requires Queue(cur, order, own) && size == JsonLen(Doc(cur))
    ensures Fits(Shrink(cur, order, own.id, size), own)
    decreases |order|
  {
    if order == [] {
      OnlyOwn(cur, own);
    } else if size > WRITE_CAP {
      QueueStep(cur, order, own);
      if order[0].id == own.id {
        ShrinkFits(cur, order[1..], own, size);
      } else {
        DropKeepsCount(cur, order[0]);
        ShrinkFits(Without(cur, order[0].id), order[1..], own, size - (JsonLen(Doc([order[0]])) - 1));
      }
    }
  }

  lemma OnlyOwn(cur: seq<Item>, own: Item)
    requires DistinctIds(cur) && own in cur && forall x :: x in cur ==> x == own
    ensures cur == [own]
  {
    assert cur[0] in cur;
    assert forall i :: 0 <= i < |cur| ==> cur[i] in cur;
    assert !(1 < |cur| && cur[0].id != cur[1].id);
  }

  lemma TwoItems(cur: seq<Item>, x: Item, y: Item)
    requires x in cur && y in cur && x != y
    ensures 2 <= |cur|
  {
  }

  lemma DropOldest(cur: seq<Item>, order: seq<Item>, r: seq<Item>, own: Item)
    requires DistinctIds(cur) && order != [] && order[0] in cur && AgeOrdered(order)
    requires OldestDropped(Without(cur, order[0].id), r, own) && Subset(r, Without(cur, order[0].id))
    requires Queue(Without(cur, order[0].id), order[1..], own)
    ensures OldestDropped(cur, r, own)
  {
    assert forall x :: x in r && x != own ==> x in order[1..];
    forall d, k | d in cur && d !in r && k in r && k != own ensures d.entry.at.value <= k.entry.at.value {
      if d.id == order[0].id {
        var j :| 0 <= j < |order[1..]| && order[1..][j] == k;
        assert order[j + 1] == k && d == order[0];
      } else {
        assert d in Without(cur, order[0].id);
      }
    }
  }

  lemma NothingDropped(cur: seq<Item>, own: Item)
    ensures OldestDropped(cur, cur, own)
  {
  }

  lemma OldestGone(cur: seq<Item>, order: seq<Item>, own: Item, size: int)
    requires DistinctIds(cur) && order != [] && order[0] in cur && AgeOrdered(order)
    requires Queue(Without(cur, order[0].id), order[1..], own)
    requires OldestDropped(Without(cur, order[0].id), Shrink(Without(cur, order[0].id), order[1..], own.id, size), own)
    ensures OldestDropped(cur, Shrink(Without(cur, order[0].id), order[1..], own.id, size), own)
  {
    var less := Without(cur, order[0].id);
    ShrinkEvicts(less, order[1..], own, size);
    DropOldest(cur, order, Shrink(less, order[1..], own.id, size), own);
  }

  lemma {:induction false} ShrinkOldest(cur: seq<Item>, order: seq<Item>, own: Item, size: int)
    requires Queue(cur, order, own) && AgeOrdered(order)
    ensures OldestDropped(cur, Shrink(cur, order, own.id, size), own)
    decreases |order|
  {
    if order == [] || size <= WRITE_CAP {
      NothingDropped(cur, own);
    } else {
      var rest, size' := ShrinkOnce(cur, order, own.id, size);
      QueueStep(cur, order, own);
      TailAge(order);
      ShrinkOldest(rest, order[1..], own, size');
      if order[0].id != own.id { OldestGone(cur, order, own, size'); }
    }
  }

  lemma TailAge(order: seq<Item>)
    requires AgeOrdered(order) && order != []
    ensures AgeOrdered(order[1..])
  {
  }

  lemma TailInRest(cur: seq<Item>, order: seq<Item>)
    requires DistinctIds(order) && Subset(order, cur) && order != []
    ensures Subset(order[1..], Without(cur, order[0].id))
  {
    forall y | y in order[1..] ensures y in Without(cur, order[0].id) {
      var i :| 0 <= i < |order[1..]| && order[1..][i] == y;
      assert order[i + 1] == y && y in order;
    }
  }

  lemma SameIdIn(cur: seq<Item>, x: Item, y: Item)
    requires DistinctIds(cur) && x in cur && y in cur
    ensures x.id == y.id ==> x == y
  {
  }

  lemma FitKeeps(cur: seq<Item>, own: Item)
    requires DistinctIds(cur) && own in cur
    ensures var r := Fit(cur, own.id); Evicted(cur, r, own) && OldestDropped(cur, r, own) && Fits(r, own)
  {
    var order := Sort(cur, ByAgeAndId());
    SortedByAgeAndId(cur);
    ShrinkEvicts(cur, order, own, JsonLen(Doc(cur)));
    ShrinkFits(cur, order, own, JsonLen(Doc(cur)));
    ShrinkOldest(cur, order, own, JsonLen(Doc(cur)));
  }
}
