/**
 * The acks file over whole runs of `ack_write` (src/apex_router/agent_inbox.py): when what is written can
 * be read again, that it reads back as it was written, and that no run of calls breaks the limits.
 */
module AckFile {
  import opened Base
  import opened Sorting
  import opened AckStore

  // ---------------------------------------------------------------- reading back what was written

  ghost predicate CleanKeys(keys: seq<string>) {
    |keys| <= KEYS_MAX && NoDup(keys) && forall k :: k in keys ==> KeyOk(k)
  }

  ghost predicate CleanItem(x: Item) {
    IdOk(x.id) && CleanKeys(x.entry.keys)
  }

  ghost predicate Clean(cur: seq<Item>) {
    DistinctIds(cur) && forall x :: x in cur ==> CleanItem(x)
  }

  /** None and overlong texts do not survive a read. */
  function SettleField(f: Field): Field {
    if f.Text? && |f.text| <= SHOWN_MAX then f else Absent
  }

  function Settle(e: Entry): Entry {
    e.(verdict := SettleField(e.verdict), state := SettleField(e.state))
  }

  function SettleAll(cur: seq<Item>): (r: seq<Item>)
    ensures |r| == |cur| && forall i :: 0 <= i < |cur| ==> r[i] == Item(cur[i].id, Settle(cur[i].entry))
  {
    if cur == [] then [] else [Item(cur[0].id, Settle(cur[0].entry))] + SettleAll(cur[1..])
  }

  lemma {:induction false} GetConcat(a: seq<Member>, b: seq<Member>, name: string)
    ensures Get(a + b, name) == if Get(a, name).Some? then Get(a, name) else Get(b, name)
  {
    if a == [] {
      assert a + b == b;
    } else {
      assert (a + b)[0] == a[0] && (a + b)[1..] == a[1..] + b;
      GetConcat(a[1..], b, name);
    }
  }

  lemma GetOne(m: Member, name: string)
    ensures Get([m], name) == if m.name == name then Some(m.value) else None
  {
    assert Get([m][1..], name) == None;
  }

  function FieldJson(f: Field): Option<Json> {
    match f
    case Absent => None
    case Nil => Some(Null)
    case Text(t) => Some(Str(t))
  }

  lemma GetField(field: string, f: Field, name: string)
    ensures Get(FieldMembers(field, f), name) == if field == name then FieldJson(f) else None
  {
    match f
    case Absent =>
    case Nil => GetOne(Member(field, Null), name);
    case Text(t) => GetOne(Member(field, Str(t)), name);
  }

  lemma GetEntry(e: Entry, name: string)
    ensures Get(EntryMembers(e), name) ==
            if name == "keys" then Some(Arr(KeyItems(e.keys)))
            else if name == "all" then Some(Bool(e.all))
            else if name == "at" then Some(Num(e.at))
            else if name == "verdict" then FieldJson(e.verdict)
            else if name == "state" then FieldJson(e.state)
            else None
  {
    var a, b, c := [Member("keys", Arr(KeyItems(e.keys)))], [Member("all", Bool(e.all))], [Member("at", Num(e.at))];
    GetOne(a[0], name);
    GetOne(b[0], name);
    GetOne(c[0], name);
    GetConcat(a, b, name);
    GetConcat(a + b, c, name);
    GetConcat(a + b + c, FieldMembers("verdict", e.verdict), name);
    GetConcat(a + b + c + FieldMembers("verdict", e.verdict), FieldMembers("state", e.state), name);
    GetField("verdict", e.verdict, name);
    GetField("state", e.state, name);
  }

  lemma {:induction false} KeysRoundTrip(keys: seq<string>)
    requires forall k :: k in keys ==> KeyOk(k)
    ensures KeysOf(KeyItems(keys)) == keys
  {
    if keys != [] {
      KeysRoundTrip(keys[1..]);
      assert KeyItems(keys)[1..] == KeyItems(keys[1..]);
    }
  }

  lemma EntryRoundTrip(e: Entry)
    requires CleanKeys(e.keys)
    ensures ReadEntry(EntryMembers(e)) == Settle(e)
  {
    var ms := EntryMembers(e);
    GetEntry(e, "keys");
    GetEntry(e, "all");
    GetEntry(e, "at");
    GetEntry(e, "verdict");
    GetEntry(e, "state");
    KeysRoundTrip(e.keys);
    assert ReadKeys(Get(ms, "keys")) == e.keys;
  }

  lemma {:induction false} DocRoundTrip(cur: seq<Item>)
    requires forall x :: x in cur ==> CleanItem(x)
    ensures ReadDoc(DocMembers(cur)) == SettleAll(cur)
  {
    if cur != [] {
      assert CleanItem(cur[0]);
      EntryRoundTrip(cur[0].entry);
      DocRoundTrip(cur[1..]);
      assert DocMembers(cur)[1..] == DocMembers(cur[1..]);
    }
  }

  /** What `ack_write` saved, `ack_read` gives back, up to None and overlong fields. */
  lemma ReadBack(cur: seq<Item>)
    requires Clean(cur) && JsonLen(Doc(cur)) <= READ_CAP
    ensures AckRead(Saved(cur)) == Some(SettleAll(cur))
  {
    DocRoundTrip(cur);
  }

  // ---------------------------------------------------------------- keys

  lemma {:induction false} MergeMembers(ks: seq<string>, keys: seq<string>)
    ensures forall k :: k in Merge(ks, keys) <==> k in ks || (k in keys && KeyOk(k))
    ensures NoDup(ks) ==> NoDup(Merge(ks, keys))
    ensures |ks| <= |Merge(ks, keys)| <= |ks| + |keys| && Merge(ks, keys)[..|ks|] == ks
    decreases |keys|
  {
    if keys != [] {
      var next := if KeyOk(keys[0]) && keys[0] !in ks then ks + [keys[0]] else ks;
      MergeMembers(next, keys[1..]);
      assert Merge(ks, keys)[..|ks|] == Merge(ks, keys)[..|next|][..|ks|];
      assert forall k :: k in keys <==> k == keys[0] || k in keys[1..];
    }
  }

  lemma MergeClean(ks: seq<string>, keys: seq<string>)
    requires NoDup(ks) && forall k :: k in ks ==> KeyOk(k)
    ensures CleanKeys(Last(Merge(ks, keys), KEYS_MAX))
  {
    MergeMembers(ks, keys);
    var m := Merge(ks, keys);
    forall k | k in Last(m, KEYS_MAX) ensures KeyOk(k) {
      assert k in m;
    }
  }

  /**
   * Every key just resolved is on record afterwards exactly when there are at most 200 new ones and none
   * of those already known stands so far in front that the new ones push it out.
   */
  lemma ResolvedKeysStay(ks: seq<string>, keys: seq<string>)
    requires CleanKeys(ks)
    ensures var added := |Merge(ks, keys)| - |ks|;
      (forall k :: k in keys && KeyOk(k) ==> k in Last(Merge(ks, keys), KEYS_MAX))
      <==> added <= KEYS_MAX && forall i :: 0 <= i < |ks| + added - KEYS_MAX ==> ks[i] !in keys
  {
    var m := Merge(ks, keys);
    var added := |m| - |ks|;
    MergeMembers(ks, keys);
    var kept := Last(m, KEYS_MAX);
    if |m| > KEYS_MAX {
      var n := |m| - KEYS_MAX;
      assert forall i :: 0 <= i < n ==> m[i] !in kept;
      assert forall i :: n <= i < |m| ==> m[i] in kept by {
        forall i | n <= i < |m| ensures m[i] in kept { assert kept[i - n] == m[i]; }
      }
      if added > KEYS_MAX {
        assert m[|ks|] in m && m[|ks|] !in ks;
        assert m[|ks|] in keys && m[|ks|] !in kept;
      } else {
        assert forall i :: 0 <= i < n ==> m[i] == m[..|ks|][i] == ks[i];
        forall i | 0 <= i < n && ks[i] in keys ensures KeyOk(ks[i]) && ks[i] !in kept { assert ks[i] in ks; }
      }
    }
  }

  function HexDigit(n: nat): char
    requires n < 16
  {
    if n < 10 then '0' + n as char else 'a' + (n - 10) as char
  }

  const ZEROS: string := "00000000000000"

  function HexKey(n: nat): string
    requires n < 256
  {
    ZEROS + [HexDigit(n / 16), HexDigit(n % 16)]
  }

  lemma HexKeyOk(n: nat)
    requires n < 256
    ensures KeyOk(HexKey(n)) && HexKey(n)[14] == HexDigit(n / 16) && HexKey(n)[15] == HexDigit(n % 16)
  {
    assert forall c :: c in ZEROS ==> c == '0';
  }

  lemma HexKeysDiffer(i: nat, j: nat)
    requires i < j < 256
    ensures HexKey(i) != HexKey(j)
  {
    HexKeyOk(i);
    HexKeyOk(j);
  }

  function HexKeys(n: nat): (ks: seq<string>)
    requires n <= 256
    ensures |ks| == n
  {
    if n == 0 then [] else HexKeys(n - 1) + [HexKey(n - 1)]
  }

  lemma {:induction false} HexKeysAt(n: nat, i: nat)
    requires i < n <= 256
    ensures HexKeys(n)[i] == HexKey(i)
  {
    if i < n - 1 {
      HexKeysAt(n - 1, i);
    }
  }

  lemma HexKeysClean(n: nat)
    requires n <= KEYS_MAX
    ensures CleanKeys(HexKeys(n))
  {
    var ks := HexKeys(n);
    forall i, j | 0 <= i < j < |ks| ensures ks[i] != ks[j] {
      HexKeysAt(n, i);
      HexKeysAt(n, j);
      HexKeysDiffer(i, j);
    }
    forall k | k in ks ensures KeyOk(k) {
      var i :| 0 <= i < |ks| && ks[i] == k;
      HexKeysAt(n, i);
      HexKeyOk(i);
    }
  }

  lemma NextKeyIsNew()
    ensures HexKey(200) !in HexKeys(200)
  {
    forall i | 0 <= i < |HexKeys(200)| ensures HexKeys(200)[i] != HexKey(200) {
      HexKeysAt(200, i);
      HexKeysDiffer(i, 200);
    }
  }

  /** With 200 keys on record, resolving the oldest of them again together with one new key loses it. */
  lemma ReResolvedKeyIsLost()
    ensures CleanKeys(HexKeys(200)) && KeyOk(HexKey(200))
    ensures HexKeys(200)[0] !in Last(Merge(HexKeys(200), [HexKeys(200)[0], HexKey(200)]), KEYS_MAX)
  {
    var ks, extra := HexKeys(200), HexKey(200);
    HexKeysClean(200);
    HexKeyOk(200);
    NextKeyIsNew();
    ResolvedKeysStay(ks, [ks[0], extra]);
    assert [ks[0], extra][1..] == [extra];
    var m := Merge(ks, [ks[0], extra]);
    assert m == Merge(ks, [extra]) == Merge(ks + [extra], [extra][1..]) == ks + [extra];
    assert forall i :: 0 <= i < |m[1..]| ==> m[1..][i] == m[i + 1];
    MergeMembers(ks, [ks[0], extra]);
  }

  // ---------------------------------------------------------------- one call

  /** What `ack_read` returns: ids and keys of the right form, at most 200 keys each, only short texts. */
  lemma {:induction false} ReadIsBounded(ms: seq<Member>)
    ensures forall x :: x in ReadDoc(ms) ==> IdOk(x.id) && |x.entry.keys| <= KEYS_MAX && Settle(x.entry) == x.entry
    ensures forall x :: x in ReadDoc(ms) ==> exists m :: m in ms && m.name == x.id
  {
    if ms != [] {
      ReadIsBounded(ms[1..]);
      forall x | x in ReadDoc(ms) ensures exists m :: m in ms && m.name == x.id {
        if x !in ReadDoc(ms[1..]) {
          assert ms[0] in ms && ms[0].name == x.id;
        }
      }
    }
  }

  /** A parsed dict has each name once, so every id is read once. */
  lemma {:induction false} ReadIsDistinct(ms: seq<Member>)
    requires DistinctNames(ms)
    ensures DistinctIds(ReadDoc(ms))
  {
    if ms != [] {
      ReadIsDistinct(ms[1..]);
      ReadIsBounded(ms[1..]);
      var r := ReadDoc(ms[1..]);
      forall i | 0 <= i < |r| ensures r[i].id != ms[0].name {
        assert r[i] in r;
        var m :| m in ms[1..] && m.name == r[i].id;
        var j :| 0 <= j < |ms[1..]| && ms[1..][j] == m;
        assert ms[j + 1] == m;
      }
    }
  }

  lemma {:induction false} LookupIn(cur: seq<Item>, x: Item)
    requires DistinctIds(cur) && x in cur
    ensures Lookup(cur, x.id) == Some(x.entry)
  {
    if cur[0] != x {
      LookupIn(cur[1..], x);
      assert x in cur[1..];
      var i :| 0 <= i < |cur| && cur[i] == x;
    }
  }

  lemma {:induction false} LookupFound(cur: seq<Item>, id: string)
    ensures Lookup(cur, id).Some? ==> Item(id, Lookup(cur, id).value) in cur
    ensures Lookup(cur, id).None? ==> forall x :: x in cur ==> x.id != id
  {
    if cur != [] && cur[0].id != id {
      LookupFound(cur[1..], id);
    }
  }

  lemma AloneIsShorter(r: seq<Item>, own: Item)
    requires DistinctIds(r) && own in r
    ensures JsonLen(Doc([own])) <= JsonLen(Doc(r))
  {
    DocLength(r);
    DocLength([own]);
    WithoutTotal(r, own);
    assert [own][1..] == [];
  }

  lemma PutDistinct(cur: seq<Item>, own: Item)
    requires DistinctIds(cur)
    ensures DistinctIds(Without(cur, own.id) + [own])
    ensures forall x :: x in Without(cur, own.id) + [own] <==> x == own || (x in cur && x.id != own.id)
  {
    WithoutDistinct(cur, own.id);
    var w := Without(cur, own.id);
    forall i | 0 <= i < |w| ensures w[i].id != own.id {
      assert w[i] in w;
    }
  }

  /**
   * The store after one write: at most 2000 ids, among them the one just written whatever the clock says,
   * every other entry as it was, nothing newer dropped than kept, and the text within three quarters of
   * the read limit exactly when the written entry alone is, which is otherwise all that stays.
   */
  lemma WrittenKeeps(cur: seq<Item>, own: Item)
    requires DistinctIds(cur)
    ensures var r := Written(cur, own);
      && DistinctIds(r) && |r| <= IDS_MAX && own in r
      && (forall x :: x in r ==> x == own || (x in cur && x.id != own.id))
      && (forall d, k :: d in cur && d.id != own.id && d !in r && k in r && k != own ==> d.entry.at.value <= k.entry.at.value)
      && (JsonLen(Doc(r)) <= WRITE_CAP <==> JsonLen(Doc([own])) <= WRITE_CAP)
      && (JsonLen(Doc(r)) <= WRITE_CAP || r == [own])
  {
    var put := Without(cur, own.id) + [own];
    PutDistinct(cur, own);
    assert own in put;
    TrimKeeps(put, own);
    var few := Trim(put, own);
    FitKeeps(few, own);
    var r := Fit(few, own.id);
    AloneIsShorter(r, own);
    forall d, k | d in cur && d.id != own.id && d !in r && k in r && k != own ensures d.entry.at.value <= k.entry.at.value {
      assert d in put;
      if d in few {
        assert OldestDropped(few, r, own);
      } else {
        assert k in few;
      }
    }
  }

  // ---------------------------------------------------------------- how long an entry can be

  lemma {:induction false} MembersConcat(a: seq<Member>, b: seq<Member>)
    ensures MembersLen(a + b) == MembersLen(a) + MembersLen(b)
  {
    if a == [] {
      assert a + b == b;
    } else {
      assert (a + b)[1..] == a[1..] + b;
      MembersConcat(a[1..], b);
    }
  }

  function HeadMembers(e: Entry): seq<Member> {
    [Member("keys", Arr(KeyItems(e.keys)))] + [Member("all", Bool(e.all))] + [Member("at", Num(e.at))]
  }

  lemma EntryMembersLen(e: Entry)
    ensures MembersLen(EntryMembers(e)) ==
            MembersLen(HeadMembers(e)) + MembersLen(FieldMembers("verdict", e.verdict)) + MembersLen(FieldMembers("state", e.state))
    ensures |EntryMembers(e)| == 3 + |FieldMembers("verdict", e.verdict)| + |FieldMembers("state", e.state)|
  {
    MembersConcat(HeadMembers(e), FieldMembers("verdict", e.verdict));
    MembersConcat(HeadMembers(e) + FieldMembers("verdict", e.verdict), FieldMembers("state", e.state));
  }

  lemma OneMember(m: Member)
    ensures MembersLen([m]) == StrLen(m.name) + 1 + JsonLen(m.value)
  {
    assert MembersLen([m][1..]) == 0;
  }

  /** What the two optional fields of an entry take up, with the commas before them. */
  function OptionalLen(name: string, f: Field): nat {
    MembersLen(FieldMembers(name, f)) + |FieldMembers(name, f)|
  }

  lemma NamedObject(name: string, ms: seq<Member>)
    requires ms != []
    ensures MembersLen([Member(name, Obj(ms))]) == StrLen(name) + 2 + MembersLen(ms) + |ms|
  {
    OneMember(Member(name, Obj(ms)));
  }

  lemma ItemLength(x: Item)
    ensures ItemLen(x) == StrLen(x.id) + 5 + MembersLen(HeadMembers(x.entry))
                          + OptionalLen("verdict", x.entry.verdict) + OptionalLen("state", x.entry.state)
  {
    NamedObject(x.id, EntryMembers(x.entry));
    EntryMembersLen(x.entry);
  }

  lemma SettledItemIsShorter(x: Item)
    ensures ItemLen(Item(x.id, Settle(x.entry))) <= ItemLen(x)
  {
    var y := Item(x.id, Settle(x.entry));
    ItemLength(x);
    ItemLength(y);
    assert HeadMembers(x.entry) == HeadMembers(y.entry);
    SettledFieldIsShorter("verdict", x.entry.verdict);
    SettledFieldIsShorter("state", x.entry.state);
  }

  lemma SettledFieldIsShorter(name: string, f: Field)
    ensures OptionalLen(name, SettleField(f)) <= OptionalLen(name, f)
  {
  }

  lemma {:induction false} SettledIsShorter(cur: seq<Item>)
    ensures ItemsTotal(SettleAll(cur)) <= ItemsTotal(cur)
  {
    if cur != [] {
      SettledItemIsShorter(cur[0]);
      SettledIsShorter(cur[1..]);
    }
  }

  ghost predicate Plain(s: string) {
    forall i :: 0 <= i < |s| ==> ' ' <= s[i] <= '~' && s[i] != '\"' && s[i] != '\\'
  }

  lemma {:induction false} PlainLen(s: string)
    requires Plain(s)
    ensures CharsLen(s) == |s|
  {
    if s != "" {
      PlainLen(s[1..]);
    }
  }

  lemma {:induction false} ShortLen(s: string)
    ensures CharsLen(s) <= 12 * |s|
  {
    if s != "" {
      ShortLen(s[1..]);
    }
  }

  lemma KeyIsPlain(k: string)
    requires KeyOk(k)
    ensures Plain(k)
  {
    forall i | 0 <= i < |k| ensures ' ' <= k[i] <= '~' && k[i] != '\"' && k[i] != '\\' {
      assert k[i] in k;
    }
  }

  lemma IdIsPlain(k: string)
    requires IdOk(k)
    ensures Plain(k)
  {
    forall i | 0 <= i < |k| ensures ' ' <= k[i] <= '~' && k[i] != '\"' && k[i] != '\\' {
      assert k[i] in k;
    }
  }

  lemma {:induction false} KeyItemsLen(keys: seq<string>)
    requires forall k :: k in keys ==> KeyOk(k)
    ensures ItemsLen(KeyItems(keys)) == 18 * |keys| && |KeyItems(keys)| == |keys|
  {
    if keys != [] {
      KeyIsPlain(keys[0]);
      PlainLen(keys[0]);
      KeyItemsLen(keys[1..]);
      assert KeyItems(keys)[1..] == KeyItems(keys[1..]);
      assert KeyItems(keys)[0] == Str(keys[0]);
    }
  }

  const TEXT_MAX: nat := 1_000_000

  predicate FieldFits(f: Field) {
    f.Text? ==> CharsLen(f.text) <= TEXT_MAX
  }

  lemma FieldLen(name: string, f: Field)
    requires FieldFits(f) && StrLen(name) <= 12
    ensures OptionalLen(name, f) <= 20 + TEXT_MAX
  {
    match f
    case Absent =>
    case Nil => OneMember(Member(name, Null));
    case Text(t) => OneMember(Member(name, Str(t)));
  }

  lemma NameLens()
    ensures StrLen("verdict") == 9 && StrLen("state") == 7
  {
    PlainLen("verdict");
    PlainLen("state");
  }

  lemma HeadLen(e: Entry)
    requires CleanKeys(e.keys) && e.at.len <= 24
    ensures MembersLen(HeadMembers(e)) <= 18 * KEYS_MAX + 300
  {
    var a, b, c := Member("keys", Arr(KeyItems(e.keys))), Member("all", Bool(e.all)), Member("at", Num(e.at));
    ThreeMembers(a, b, c);
    HeadNames();
    KeyItemsLen(e.keys);
  }

  lemma ThreeMembers(a: Member, b: Member, c: Member)
    ensures MembersLen([a, b, c]) == MembersLen([a]) + MembersLen([b]) + MembersLen([c])
    ensures forall m :: m in [a, b, c] ==> MembersLen([m]) == StrLen(m.name) + 1 + JsonLen(m.value)
  {
    MembersConcat([a], [b]);
    MembersConcat([a] + [b], [c]);
    OneMember(a);
    OneMember(b);
    OneMember(c);
  }

  lemma HeadNames()
    ensures StrLen("keys") == 6 && StrLen("all") == 5 && StrLen("at") == 4
  {
    PlainLen("keys");
    PlainLen("all");
    PlainLen("at");
  }

  /** One entry with at most 200 keys fits by far, unless its texts are a megabyte long. */
  lemma OneEntryFits(own: Item)
    requires CleanItem(own) && own.entry.at.len <= 24 && FieldFits(own.entry.verdict) && FieldFits(own.entry.state)
    ensures JsonLen(Doc([own])) <= WRITE_CAP
  {
    ItemBound(own);
    DocLength([own]);
    assert ItemsTotal([own][1..]) == 0;
  }

  lemma ItemBound(own: Item)
    requires CleanItem(own) && own.entry.at.len <= 24 && FieldFits(own.entry.verdict) && FieldFits(own.entry.state)
    ensures ItemLen(own) <= 2 * TEXT_MAX + 18 * KEYS_MAX + 500
  {
    ItemLength(own);
    IdLen(own.id);
    HeadLen(own.entry);
    NameLens();
    FieldLen("verdict", own.entry.verdict);
    FieldLen("state", own.entry.state);
  }

  lemma IdLen(id: string)
    requires IdOk(id)
    ensures StrLen(id) <= 130
  {
    IdIsPlain(id);
    PlainLen(id);
  }

  lemma SettledFieldFits(f: Field)
    ensures FieldFits(SettleField(f))
  {
    if SettleField(f).Text? { ShortLen(f.text); }
  }

  /** However long its texts, an entry as it is read back fits. */
  lemma SettledFits(own: Item)
    requires CleanItem(own) && own.entry.at.len <= 24
    ensures JsonLen(Doc(SettleAll([own]))) <= WRITE_CAP
  {
    var y := Item(own.id, Settle(own.entry));
    assert SettleAll([own]) == [y];
    SettledFieldFits(own.entry.verdict);
    SettledFieldFits(own.entry.state);
    OneEntryFits(y);
  }

  // ---------------------------------------------------------------- whole runs

  /** What `ack_read` finds in a file that only `ack_write` has written. */
  ghost predicate Sound(f: File) {
    && AckRead(f).Some? && Clean(AckRead(f).value) && |AckRead(f).value| <= IDS_MAX
    && SettleAll(AckRead(f).value) == AckRead(f).value && JsonLen(Doc(AckRead(f).value)) <= WRITE_CAP
  }

  /** A time takes at most 24 characters, and the entry the call makes can be read when it is alone in the file. */
  predicate OpFits(f: File, op: Op) {
    StampFits(op) && OwnFits(f, op)
  }

  predicate StampFits(op: Op) {
    op.Resolve? ==> op.now.len <= 24
  }

  predicate OwnFits(f: File, op: Op) {
    op.Resolve? && IdOk(op.iid) && AckRead(f).Some? ==> JsonLen(Doc([OwnItem(AckRead(f).value, op)])) <= READ_CAP
  }

  lemma SettleTwice(cur: seq<Item>)
    ensures SettleAll(SettleAll(cur)) == SettleAll(cur)
  {
  }

  lemma SettledIsClean(r: seq<Item>)
    requires Clean(r)
    ensures Clean(SettleAll(r))
  {
    var s := SettleAll(r);
    forall x | x in s ensures CleanItem(x) {
      var i :| 0 <= i < |s| && s[i] == x;
      assert r[i] in r;
    }
  }

  lemma SettledDocIsShorter(r: seq<Item>)
    ensures JsonLen(Doc(SettleAll(r))) <= JsonLen(Doc(r))
  {
    DocLength(r);
    DocLength(SettleAll(r));
    SettledIsShorter(r);
  }

  lemma SavedIsSound(r: seq<Item>)
    requires Clean(r) && |r| <= IDS_MAX && JsonLen(Doc(r)) <= READ_CAP && JsonLen(Doc(SettleAll(r))) <= WRITE_CAP
    ensures AckRead(Saved(r)) == Some(SettleAll(r)) && Sound(Saved(r))
  {
    ReadBack(r);
    SettledIsClean(r);
    SettleTwice(r);
  }

  lemma OwnIsClean(cur: seq<Item>, op: Op)
    requires Clean(cur) && op.Resolve? && IdOk(op.iid) && StampFits(op)
    ensures var own := OwnItem(cur, op); CleanItem(own) && own.entry.at.len <= 24
  {
    LookupFound(cur, op.iid);
    var known := Lookup(cur, op.iid);
    if known.Some? {
      assert CleanItem(Item(op.iid, known.value));
      MergeClean(known.value.keys, op.keys);
    } else {
      MergeClean([], op.keys);
    }
  }

  lemma ResolveIsSound(f: File, op: Op)
    requires Sound(f) && op.Resolve? && IdOk(op.iid) && OpFits(f, op)
    ensures var cur := AckRead(f).value; var r := Written(cur, OwnItem(cur, op));
      AfterWrite(f, op) == (true, Saved(r)) && Clean(r) && AckRead(Saved(r)) == Some(SettleAll(r)) && Sound(Saved(r))
  {
    var cur := AckRead(f).value;
    var own := OwnItem(cur, op);
    OwnIsClean(cur, op);
    WrittenIsClean(cur, own);
    SavedIsSound(Written(cur, own));
  }

  lemma WrittenIsClean(cur: seq<Item>, own: Item)
    requires Clean(cur) && CleanItem(own) && own.entry.at.len <= 24 && JsonLen(Doc([own])) <= READ_CAP
    ensures var r := Written(cur, own);
      Clean(r) && |r| <= IDS_MAX && JsonLen(Doc(r)) <= READ_CAP && JsonLen(Doc(SettleAll(r))) <= WRITE_CAP
  {
    WrittenKeeps(cur, own);
    SettledFits(own);
    SettledDocIsShorter(Written(cur, own));
  }

  /** An entry too long to be read is all the file then holds, and no later call can read it. */
  lemma OversizedIsLost(f: File, op: Op)
    requires Sound(f) && op.Resolve? && IdOk(op.iid) && !OwnFits(f, op)
    ensures AckRead(AfterWrite(f, op).1).None?
  {
    WrittenKeeps(AckRead(f).value, OwnItem(AckRead(f).value, op));
  }

  /** Texts of up to a megabyte always fit, and so does every call that does not resolve all. */
  lemma ShortTextsFit(f: File, op: Op)
    requires Sound(f) && op.Resolve? && IdOk(op.iid) && StampFits(op)
    requires op.all ==> FieldFits(op.verdict) && FieldFits(op.state)
    ensures OwnFits(f, op)
  {
    var cur := AckRead(f).value;
    OwnIsClean(cur, op);
    KnownFieldsFit(cur, op.iid);
    OneEntryFits(OwnItem(cur, op));
  }

  lemma KnownFieldsFit(cur: seq<Item>, id: string)
    requires SettleAll(cur) == cur
    ensures Lookup(cur, id).Some? ==> FieldFits(Lookup(cur, id).value.verdict) && FieldFits(Lookup(cur, id).value.state)
  {
    LookupFound(cur, id);
    var known := Lookup(cur, id);
    if known.Some? {
      var i :| 0 <= i < |cur| && cur[i] == Item(id, known.value);
      assert SettleAll(cur)[i] == Item(id, Settle(known.value));
      SettledFieldFits(known.value.verdict);
      SettledFieldFits(known.value.state);
    }
  }

  lemma WithoutShorter(cur: seq<Item>, x: Item)
    requires Clean(cur) && x in cur
    ensures Clean(Without(cur, x.id)) && |Without(cur, x.id)| <= |cur|
    ensures JsonLen(Doc(Without(cur, x.id))) <= JsonLen(Doc(cur))
  {
    DocLength(cur);
    DocLength(Without(cur, x.id));
    WithoutTotal(cur, x);
  }

  lemma UndoIsSound(f: File, iid: string)
    requires Sound(f) && IdOk(iid)
    ensures var (ok, f') := AfterWrite(f, Undo(iid));
      ok && Sound(f') && AckRead(f').value == Without(AckRead(f).value, iid)
  {
    var cur := AckRead(f).value;
    LookupFound(cur, iid);
    if Lookup(cur, iid).None? {
      WithoutAbsent(cur, iid);
    } else {
      var r := Without(cur, iid);
      WithoutShorter(cur, Item(iid, Lookup(cur, iid).value));
      WithoutSettled(cur, iid);
      SavedIsSound(r);
    }
  }

  lemma {:induction false} WithoutSettled(cur: seq<Item>, iid: string)
    requires SettleAll(cur) == cur
    ensures SettleAll(Without(cur, iid)) == Without(cur, iid)
  {
    var r := Without(cur, iid);
    forall i | 0 <= i < |r| ensures SettleAll(r)[i] == r[i] {
      assert r[i] in cur;
      var j :| 0 <= j < |cur| && cur[j] == r[i];
      assert SettleAll(cur)[j] == cur[j];
    }
  }

  function RunOps(ops: seq<Op>): File {
    if ops == [] then NoFile else AfterWrite(RunOps(ops[..|ops| - 1]), ops[|ops| - 1]).1
  }

  /** No call of the run makes an entry too long to be read. */
  predicate AllFit(ops: seq<Op>) {
    ops != [] ==> AllFit(ops[..|ops| - 1]) && OwnFits(RunOps(ops[..|ops| - 1]), ops[|ops| - 1])
  }

  lemma StepIsSound(f: File, op: Op)
    requires Sound(f) && OpFits(f, op)
    ensures Sound(AfterWrite(f, op).1) && AfterWrite(f, op).0 == IdOk(op.iid)
  {
    if IdOk(op.iid) {
      match op
      case Undo(iid) => UndoIsSound(f, iid);
      case Resolve(_, _, _, _, _, _) => ResolveIsSound(f, op);
    }
  }

  lemma {:induction false} RunIsSound(ops: seq<Op>)
    requires forall op :: op in ops ==> StampFits(op)
    ensures if AllFit(ops) then Sound(RunOps(ops)) else AckRead(RunOps(ops)).None?
  {
    if ops == [] {
      DocLength([]);
      assert Sound(NoFile);
    } else {
      var before, op := ops[..|ops| - 1], ops[|ops| - 1];
      RunIsSound(before);
      if AllFit(before) {
        if OwnFits(RunOps(before), op) { StepIsSound(RunOps(before), op); } else { OversizedIsLost(RunOps(before), op); }
      }
    }
  }

  /**
   * However many ids and keys a run of writes and undos throws at the store, it stays readable exactly
   * as long as no single entry is by itself too long for the read limit. It then reads as at most 2000
   * ids with at most 200 keys each, and the next call succeeds exactly when its id has the right form;
   * otherwise every later call is refused.
   */
  lemma StoreStaysReadable(ops: seq<Op>, op: Op)
    requires forall x :: x in ops ==> StampFits(x)
    ensures var f := RunOps(ops);
      && (AckRead(f).Some? <==> AllFit(ops))
      && (AckRead(f).Some? ==>
            && |AckRead(f).value| <= 2000
            && forall x :: x in AckRead(f).value ==> IdOk(x.id) && |x.entry.keys| <= 200)
      && (AfterWrite(f, op).0 <==> IdOk(op.iid) && AllFit(ops))
  {
    RunIsSound(ops);
    var f := RunOps(ops);
    if AllFit(ops) {
      forall x | x in AckRead(f).value ensures IdOk(x.id) && |x.entry.keys| <= 200 {
        assert CleanItem(x);
      }
    }
  }

  /** A call as the program makes them: verdicts and states are words, far shorter than a megabyte. */
  predicate ShortCall(op: Op) {
    StampFits(op) && (op.Resolve? && op.all ==> FieldFits(op.verdict) && FieldFits(op.state))
  }

  ghost predicate AllShort(ops: seq<Op>) {
    forall i :: 0 <= i < |ops| ==> ShortCall(ops[i])
  }

  lemma ShortCallFits(f: File, op: Op)
    requires Sound(f) && ShortCall(op)
    ensures OpFits(f, op)
  {
    if op.Resolve? && IdOk(op.iid) { ShortTextsFit(f, op); }
  }

  lemma {:induction false} ShortCallsFit(ops: seq<Op>)
    requires AllShort(ops)
    ensures AllFit(ops) && Sound(RunOps(ops))
  {
    if ops == [] {
      DocLength([]);
    } else {
      var f, op := RunOps(ops[..|ops| - 1]), ops[|ops| - 1];
      ShortCallsFit(ops[..|ops| - 1]);
      ShortCallFits(f, op);
      StepIsSound(f, op);
    }
  }

  /** No run of such calls ever makes the store unreadable: `ack_read` accepts all that `ack_write` produced. */
  lemma ShortCallsStayReadable(ops: seq<Op>)
    requires AllShort(ops)
    ensures AllFit(ops) && AckRead(RunOps(ops)).Some? && JsonLen(Doc(AckRead(RunOps(ops)).value)) <= WRITE_CAP
  {
    ShortCallsFit(ops);
  }

  /** A text as long as the read limit. */
  const LONG_TEXT: string := seq(READ_CAP, i => 'a')

  const LONG_CALL := Resolve("x", [], true, Text(LONG_TEXT), Nil, Stamp(0.0, 3))

  /** A call with such a text, on a store that is not there yet, makes one that cannot be read. */
  lemma LongCallIsLost()
    ensures IdOk("x") && StampFits(LONG_CALL) && !OwnFits(NoFile, LONG_CALL)
    ensures AfterWrite(NoFile, LONG_CALL).0 && AckRead(AfterWrite(NoFile, LONG_CALL).1).None?
  {
    var own := OwnItem([], LONG_CALL);
    assert own.entry.verdict == Text(LONG_TEXT);
    LongItem(own);
    DocLength([]);
    OversizedIsLost(NoFile, LONG_CALL);
  }

  lemma LongItem(own: Item)
    requires own.entry.verdict == Text(LONG_TEXT)
    ensures JsonLen(Doc([own])) > READ_CAP
  {
    PlainLen(LONG_TEXT);
    LongField(own.entry.verdict);
    ItemLength(own);
    DocLength([own]);
    assert ItemsTotal([own][1..]) == 0;
  }

  lemma LongField(f: Field)
    requires f.Text?
    ensures OptionalLen("verdict", f) >= CharsLen(f.text)
  {
    OneMember(Member("verdict", Str(f.text)));
  }

  lemma {:induction false} LookupSettled(cur: seq<Item>, k: string)
    ensures Lookup(SettleAll(cur), k) == if Lookup(cur, k).Some? then Some(Settle(Lookup(cur, k).value)) else None
  {
    if cur != [] && cur[0].id != k {
      LookupSettled(cur[1..], k);
      assert SettleAll(cur)[1..] == SettleAll(cur[1..]);
    }
  }

  /** After a write the id just written reads back as written, and any other id as before or not at all. */
  lemma OthersUnchanged(ops: seq<Op>, op: Op, k: string)
    requires (forall x :: x in ops ==> StampFits(x)) && AckRead(RunOps(ops)).Some?
    requires op.Resolve? && IdOk(op.iid) && OpFits(RunOps(ops), op)
    ensures var f := RunOps(ops); var g := RunOps(ops + [op]);
      && AckRead(g).Some?
      && (k == op.iid ==> Lookup(AckRead(g).value, k) == Some(Settle(OwnItem(AckRead(f).value, op).entry)))
      && (k != op.iid && Lookup(AckRead(g).value, k).Some? ==> Lookup(AckRead(g).value, k) == Lookup(AckRead(f).value, k))
  {
    RunIsSound(ops);
    assert (ops + [op])[..|ops|] == ops;
    OthersUnchangedBy(RunOps(ops), op, k);
  }

  lemma OthersUnchangedBy(f: File, op: Op, k: string)
    requires Sound(f) && op.Resolve? && IdOk(op.iid) && OpFits(f, op)
    ensures var g := AfterWrite(f, op).1;
      && AckRead(g).Some?
      && (k == op.iid ==> Lookup(AckRead(g).value, k) == Some(Settle(OwnItem(AckRead(f).value, op).entry)))
      && (k != op.iid && Lookup(AckRead(g).value, k).Some? ==> Lookup(AckRead(g).value, k) == Lookup(AckRead(f).value, k))
  {
    ResolveIsSound(f, op);
    var cur := AckRead(f).value;
    var own := OwnItem(cur, op);
    WrittenKeeps(cur, own);
    LookupSettled(Written(cur, own), k);
    if k == op.iid {
      LookupIn(Written(cur, own), own);
    } else {
      KeptAsRead(cur, Written(cur, own), own, k);
    }
  }

  lemma KeptAsRead(cur: seq<Item>, r: seq<Item>, own: Item, k: string)
    requires DistinctIds(cur) && SettleAll(cur) == cur && k != own.id
    requires forall x :: x in r ==> x == own || x in cur
    ensures Lookup(r, k).Some? ==> Lookup(cur, k) == Some(Settle(Lookup(r, k).value))
  {
    LookupFound(r, k);
    if Lookup(r, k).Some? {
      var x := Item(k, Lookup(r, k).value);
      LookupIn(cur, x);
      var i :| 0 <= i < |cur| && cur[i] == x;
      assert SettleAll(cur)[i] == Item(x.id, Settle(x.entry));
    }
  }

  /** Undoing the first resolution of an item gives back the acks as they read before, when nothing had to be dropped. */
  lemma UndoRestores(f: File, op: Op)
    requires Sound(f) && OpFits(f, op) && op.Resolve? && IdOk(op.iid)
    requires Lookup(AckRead(f).value, op.iid).None? && |AckRead(f).value| < IDS_MAX
    requires JsonLen(Doc(AckRead(f).value + [OwnItem(AckRead(f).value, op)])) <= WRITE_CAP
    ensures AckRead(AfterWrite(AfterWrite(f, op).1, Undo(op.iid)).1) == AckRead(f)
  {
    var cur := AckRead(f).value;
    var own := OwnItem(cur, op);
    LookupFound(cur, op.iid);
    NothingDropped(cur, own);
    ResolveIsSound(f, op);
    UndoIsSound(Saved(cur + [own]), op.iid);
    SettleSnoc(cur, own);
  }

  lemma SettleSnoc(cur: seq<Item>, own: Item)
    requires SettleAll(cur) == cur && forall y :: y in cur ==> y.id != own.id
    ensures Without(SettleAll(cur + [own]), own.id) == cur
  {
    var s := SettleAll(cur + [own]);
    forall i | 0 <= i < |cur| ensures s[i] == cur[i] {
      assert SettleAll(cur)[i] == cur[i];
    }
    assert s == cur + [Item(own.id, Settle(own.entry))];
    WithoutLast(cur, Item(own.id, Settle(own.entry)));
  }

  lemma NothingDropped(cur: seq<Item>, own: Item)
    requires (forall y :: y in cur ==> y.id != own.id) && |cur| < IDS_MAX && JsonLen(Doc(cur + [own])) <= WRITE_CAP
    ensures Written(cur, own) == cur + [own]
  {
    WithoutAbsent(cur, own.id);
  }

  lemma {:induction false} WithoutLast(cur: seq<Item>, x: Item)
    requires forall y :: y in cur ==> y.id != x.id
    ensures Without(cur + [x], x.id) == cur
  {
    if cur == [] {
      assert [x][1..] == [];
    } else {
      assert cur[0] in cur && (cur + [x])[1..] == cur[1..] + [x];
      WithoutLast(cur[1..], x);
    }
  }

  // ---------------------------------------------------------------- the file itself

  method MergeKeys(known: seq<string>, keys: seq<string>) returns (ks: seq<string>)
    ensures ks == Merge(known, keys)
  {
    ks := known;
    var i := 0;
    while i < |keys|
      invariant 0 <= i <= |keys| && Merge(ks, keys[i..]) == Merge(known, keys)
    {
      assert keys[i..][0] == keys[i] && keys[i..][1..] == keys[i + 1..];
      if KeyOk(keys[i]) && keys[i] !in ks {
        ks := ks + [keys[i]];
      }
      i := i + 1;
    }
  }

  method DropOldestUntilFit(all: seq<Item>, iid: string) returns (cur: seq<Item>)
    ensures cur == Fit(all, iid)
  {
    cur := ShrinkLoop(all, Sort(all, ByAgeAndId()), iid, JsonLen(Doc(all)));
  }

  /** The loop: from the oldest on, each item but its own goes, its length subtracted, until the rest fits. */
  method ShrinkLoop(all: seq<Item>, order: seq<Item>, iid: string, length: int) returns (cur: seq<Item>)
    ensures cur == Shrink(all, order, iid, length)
  {
    cur := all;
    var i, size := 0, length;
    assert order[0..] == order;
    while i < |order| && size > WRITE_CAP
      invariant 0 <= i <= |order| && Shrink(cur, order[i..], iid, size) == Shrink(all, order, iid, length)
    {
      ShrinkAt(cur, order, i, iid, size);
      if order[i].id != iid {
        size := size - (JsonLen(Doc([order[i]])) - 1);
        cur := Without(cur, order[i].id);
      }
      i := i + 1;
    }
    ShrinkDone(cur, order[i..], iid, size);
  }

  lemma ShrinkAt(cur: seq<Item>, order: seq<Item>, i: nat, iid: string, size: int)
    requires i < |order| && size > WRITE_CAP
    ensures Shrink(cur, order[i..], iid, size) ==
      if order[i].id == iid then Shrink(cur, order[i + 1..], iid, size)
      else Shrink(Without(cur, order[i].id), order[i + 1..], iid, size - (JsonLen(Doc([order[i]])) - 1))
  {
    assert order[i..][0] == order[i] && order[i..][1..] == order[i + 1..];
  }

  lemma ShrinkDone(cur: seq<Item>, order: seq<Item>, iid: string, size: int)
    requires order == [] || size <= WRITE_CAP
    ensures Shrink(cur, order, iid, size) == cur
  {
  }

  class AckStoreFile {
    var file: File

    constructor ()
      ensures file == NoFile
    {
      file := NoFile;
    }

    method Write(op: Op) returns (ok: bool)
      modifies this
      ensures (ok, file) == AfterWrite(old(file), op)
    {
      if !IdOk(op.iid) { return false; }
      var read := AckRead(file);
      if read.None? { return false; }
      var cur := read.value;
      match op {
      case Undo(iid) =>
        if Lookup(cur, iid).None? { return true; }
        cur := Without(cur, iid);
      case Resolve(iid, keys, all, verdict, state, now) =>
        var known := Lookup(cur, iid);
        var e := if known.Some? then known.value else Entry([], false, now, Absent, Absent);
        var ks := MergeKeys(e.keys, keys);
        var own := Item(iid, Entry(Last(ks, KEYS_MAX), e.all || all, now,
                                   if all then verdict else e.verdict, if all then state else e.state));
        cur := Without(cur, iid) + [own];
        cur := Trim(cur, own);
        cur := DropOldestUntilFit(cur, iid);
      }
      file := Saved(cur);
      ok := true;
    }
  }
}
