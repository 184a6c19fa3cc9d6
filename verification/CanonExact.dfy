/** Canonical texts to the letter: the order of members, and the texts that are signed, hashed and handed out. */
module CanonExact {
  import opened Text
  import opened Json
  import opened JsonExact
  import opened Jcs
  import opened Order
  import P = Pagination
  import B = Base64url
  import HB = HashedBytes

  ghost predicate Ascends(keys: seq<Units>) { forall i, j :: 0 <= i < j < |keys| ==> Less(keys[i], keys[j]) }

  function Keys(entries: seq<Entry>): (r: seq<Units>)
    ensures |r| == |entries| && forall i :: 0 <= i < |r| ==> r[i] == entries[i].key
  {
    seq(|entries|, i requires 0 <= i < |entries| => entries[i].key)
  }

  lemma AscendingIsSorted(s: seq<Entry>)
    requires Ascends(Keys(s))
    ensures Sorted(s, ByKey()) && DistinctKeys(s)
  {
    hide Less;
    var k := Keys(s);
    forall i, j | 0 <= i < j < |s| ensures !Less(s[j].key, s[i].key) && s[i].key != s[j].key {
      assert Less(k[i], k[j]);
      LessAsymmetric(s[i].key, s[j].key);
      LessIrreflexive(s[i].key);
    }
  }

  /** The members of a canonical object stand in strictly ascending order of their keys' units. */
  lemma MembersAscend(entries: seq<Entry>)
    requires Proper(Obj(entries))
    ensures Norm(Obj(entries)).Obj? && Ascends(Keys(Norm(Obj(entries)).entries))
    ensures multiset(Norm(Obj(entries)).entries) == multiset(NormEntries(entries))
  {
    var m := NormEntries(entries);
    var s := Sort(m, ByKey());
    SortSorted(m, ByKey());
    SortPermutes(m, ByKey());
    NormKeepsKeys(entries);
    SortDistinctKeys(m);
    hide Less, Norm;
    forall i, j | 0 <= i < j < |s| ensures Less(s[i].key, s[j].key) {
      assert !Less(ByKey()(s[j]), ByKey()(s[i]));
      LessTotal(s[i].key, s[j].key);
    }
    SortedNorm(entries);
  }

  lemma SortedNorm(entries: seq<Entry>)
    ensures Norm(Obj(entries)) == Obj(Sort(NormEntries(entries), ByKey()))
  {
  }

  lemma {:induction false} NormKeepsKeys(entries: seq<Entry>)
    requires DistinctKeys(entries)
    ensures DistinctKeys(NormEntries(entries))
  {
    hide Norm;
    if entries != [] {
      NormKeepsKeys(entries[1..]);
      var rest := NormEntries(entries[1..]);
      forall j | 0 <= j < |rest| ensures rest[j].key != entries[0].key {
        NormMember(entries[1..], rest[j]);
      }
    }
  }

  lemma SortDistinctKeys(m: seq<Entry>)
    requires DistinctKeys(m)
    ensures DistinctKeys(Sort(m, ByKey()))
  {
    var s := Sort(m, ByKey());
    SortPermutes(m, ByKey());
    forall i, j | 0 <= i < j < |s| ensures s[i].key != s[j].key {
      SortMember(m, ByKey(), s[i]);
      SortMember(m, ByKey(), s[j]);
      var p :| 0 <= p < |m| && m[p] == s[i];
      var q :| 0 <= q < |m| && m[q] == s[j];
      if s[i] == s[j] {
        Twice(s, i, j);
        OnceEach(m, s[i]);
      }
    }
  }

  /** Members that already ascend are printed as they stand, undefined ones left out. */
  lemma AscendingPrints(entries: seq<Entry>)
    requires Ascends(Keys(entries))
    ensures Canon(Obj(entries)) == Print(Obj(NormEntries(entries)))
  {
    AscendingIsSorted(entries);
    SortOfAscending(entries);
    NormOfSorted(entries);
    SortedNorm(entries);
    hide Print, Sort, Norm, NormEntries;
  }

  lemma SortOfAscending(s: seq<Entry>)
    requires Sorted(s, ByKey()) && DistinctKeys(s)
    ensures Sort(s, ByKey()) == s
  {
    SortPermutes(s, ByKey());
    SortSorted(s, ByKey());
    SortedUnique(s, Sort(s, ByKey()), ByKey());
  }

  // ---- Signed records and receipts ----

  /** The same fields under the same keys, in another order; `back` leads back. */
  ghost predicate Reorders(order: seq<nat>, back: seq<nat>, keys: seq<Units>, other: seq<Units>) {
    && |order| == |back| == |keys| == |other|
    && (forall i :: 0 <= i < |order| ==> order[i] < |keys| && other[i] == keys[order[i]])
    && (forall j :: 0 <= j < |back| ==> back[j] < |order| && order[back[j]] == j)
  }

  function Reordered(order: seq<nat>, fields: seq<Value>): (r: seq<Value>)
    requires forall i :: 0 <= i < |order| ==> order[i] < |fields|
    ensures |r| == |order| && forall i :: 0 <= i < |r| ==> r[i] == fields[order[i]]
  {
    seq(|order|, i requires 0 <= i < |order| => fields[order[i]])
  }

  lemma ReorderedKeys(order: seq<nat>, back: seq<nat>, keys: seq<Units>, other: seq<Units>, fields: seq<Value>, k: Units)
    requires Reorders(order, back, keys, other) && |fields| == |keys|
    ensures k in Members(Record(keys, fields)) <==> k in Members(Record(other, Reordered(order, fields)))
  {
    var r, t := Record(keys, fields), Record(other, Reordered(order, fields));
    MembersAre(r, k);
    MembersAre(t, k);
    if k in Members(r) {
      var j :| 0 <= j < |r| && r[j].key == k && !r[j].value.Undefined?;
      assert t[back[j]].key == k && t[back[j]].value == r[j].value;
    }
    if k in Members(t) {
      var i :| 0 <= i < |t| && t[i].key == k && !t[i].value.Undefined?;
      assert r[order[i]].key == k && r[order[i]].value == t[i].value;
    }
  }

  lemma ReorderedValue(order: seq<nat>, back: seq<nat>, keys: seq<Units>, other: seq<Units>, fields: seq<Value>, k: Units)
    requires Reorders(order, back, keys, other) && |fields| == |keys| && AllDistinct(keys) && AllDistinct(other)
    requires k in Members(Record(keys, fields)) && k in Members(Record(other, Reordered(order, fields)))
    ensures Members(Record(keys, fields))[k] == Members(Record(other, Reordered(order, fields)))[k]
  {
    hide MeaningOf;
    var r, t := Record(keys, fields), Record(other, Reordered(order, fields));
    MembersAre(r, k);
    var j :| 0 <= j < |r| && r[j].key == k && !r[j].value.Undefined?;
    MemberAt(r, j);
    MemberAt(t, back[j]);
  }

  lemma ReorderedText(order: seq<nat>, back: seq<nat>, keys: seq<Units>, other: seq<Units>, fields: seq<Value>)
    requires Reorders(order, back, keys, other) && |fields| == |keys| && AllDistinct(keys) && AllDistinct(other)
    requires forall i :: 0 <= i < |fields| ==> Proper(fields[i])
    ensures Canon(Obj(Record(keys, fields))) == Canon(Obj(Record(other, Reordered(order, fields))))
  {
    hide Canon, MeaningOf, Proper, Members;
    var r, t := Record(keys, fields), Record(other, Reordered(order, fields));
    forall k ensures k in Members(r) <==> k in Members(t) { ReorderedKeys(order, back, keys, other, fields, k); }
    forall k | k in Members(r) ensures Members(r)[k] == Members(t)[k] { ReorderedValue(order, back, keys, other, fields, k); }
    SameMeaning(r, t);
  }

  lemma SameMeaning(r: seq<Entry>, t: seq<Entry>)
    requires Members(r) == Members(t) && DistinctKeys(r) && DistinctKeys(t)
    requires (forall i :: 0 <= i < |r| ==> Proper(r[i].value)) && forall i :: 0 <= i < |t| ==> Proper(t[i].value)
    ensures Canon(Obj(r)) == Canon(Obj(t))
  {
    CanonDecides(Obj(r), Obj(t));
    hide Canon;
  }

  lemma Before(a: string, b: string, k: nat)
    requires k <= |a| && k < |b| && a[..k] == b[..k] && (k < |a| ==> a[k] < b[k] < 128 as char)
    ensures Less(Ascii(a), Ascii(b))
  {
    var x, y := Ascii(a), Ascii(b);
    assert forall i :: 0 <= i < k ==> a[..k][i] == b[..k][i];
    assert x[..k] == y[..k];
    assert DiffersAt(x, y, k);
    LessExactly(x, y);
  }

  lemma {:induction false} NextsAscend(keys: seq<Units>, i: nat, j: nat)
    requires (forall k :: 0 <= k < |keys| - 1 ==> Less(keys[k], keys[k + 1])) && i < j < |keys|
    ensures Less(keys[i], keys[j])
    decreases j
  {
    hide Less;
    if i < j - 1 {
      NextsAscend(keys, i, j - 1);
      LessTransitive(keys[i], keys[j - 1], keys[j]);
    }
  }

  lemma NextsAreEnough(keys: seq<Units>)
    requires forall k :: 0 <= k < |keys| - 1 ==> Less(keys[k], keys[k + 1])
    ensures Ascends(keys) && AllDistinct(keys)
  {
    hide Less;
    forall i, j | 0 <= i < j < |keys| ensures Less(keys[i], keys[j]) && keys[i] != keys[j] {
      NextsAscend(keys, i, j);
      LessIrreflexive(keys[i]);
    }
  }

  /** The names of a signed record's members, in the order of the text. */
  function SignedNames(): (r: seq<Units>)
    ensures |r| == 14
  {
    [Ascii("action"), Ascii("agent_id"), Ascii("agent_pubkey_kid"), Ascii("issued_at"), Ascii("nonce"), Ascii("op_version"),
     Ascii("operation_id"), Ascii("operation_type"), Ascii("org_id"), Ascii("payload"), Ascii("payload_hash"),
     Ascii("prev_chain_hash"), Ascii("subject"), Ascii("ttl_ms")]
  }

  lemma SignedNamesAscend()
    ensures Ascends(SignedNames()) && AllDistinct(SignedNames())
  {
    hide Less, Ascii;
    Before("action", "agent_id", 1);
    Before("agent_id", "agent_pubkey_kid", 6);
    Before("agent_pubkey_kid", "issued_at", 0);
    Before("issued_at", "nonce", 0);
    Before("nonce", "op_version", 0);
    Before("op_version", "operation_id", 2);
    Before("operation_id", "operation_type", 10);
    Before("operation_type", "org_id", 1);
    Before("org_id", "payload", 0);
    Before("payload", "payload_hash", 7);
    Before("payload_hash", "prev_chain_hash", 1);
    Before("prev_chain_hash", "subject", 0);
    Before("subject", "ttl_ms", 0);
    NextsAreEnough(SignedNames());
  }

  datatype Signed = Signed(
    opVersion: Value, operationId: Value, orgId: Value, agentId: Value, issuedAt: Value, ttlMs: Value, nonce: Value,
    operationType: Value, subject: Value, action: Value, payload: Value, payloadHash: Value, prevChainHash: Value, kid: Value)

  /** The fields as the object literal lists them. */
  function Listed(r: Signed): (f: seq<Value>)
    ensures |f| == 14
  {
    [r.opVersion, r.operationId, r.orgId, r.agentId, r.issuedAt, r.ttlMs, r.nonce,
     r.operationType, r.subject, r.action, r.payload, r.payloadHash, r.prevChainHash, r.kid]
  }

  /** The fields as the text has them. */
  function InTextOrder(r: Signed): (f: seq<Value>)
    ensures |f| == 14
  {
    [r.action, r.agentId, r.kid, r.issuedAt, r.nonce, r.opVersion, r.operationId, r.operationType, r.orgId,
     r.payload, r.payloadHash, r.prevChainHash, r.subject, r.ttlMs]
  }

  const ORDER: seq<nat> := [9, 3, 13, 4, 6, 0, 1, 7, 2, 10, 11, 12, 8, 5]
  const BACK: seq<nat> := [5, 6, 8, 1, 3, 13, 4, 7, 12, 0, 9, 10, 11, 2]

  lemma SignedOrder()
    ensures Reorders(ORDER, BACK, SignedKeys(), SignedNames())
  {
    hide Ascii;
  }

  lemma OrderedFields(r: Signed)
    ensures (forall i :: 0 <= i < |ORDER| ==> ORDER[i] < 14) && Reordered(ORDER, Listed(r)) == InTextOrder(r)
  {
  }

  /** The signed text has the members under these names and in this order, an absent payload left out. */
  lemma SignedTextExactly(r: Signed)
    requires forall i :: 0 <= i < 14 ==> Proper(Listed(r)[i])
    ensures Canon(Obj(Record(SignedKeys(), Listed(r)))) == Print(Obj(NormEntries(Record(SignedNames(), InTextOrder(r)))))
  {
    hide Proper, Canon, Print, NormEntries, Listed, InTextOrder, SignedKeys, SignedNames, ORDER, BACK, Ascends, Reorders, AllDistinct;
    SignedKeysDistinct();
    SignedNamesAscend();
    SignedOrder();
    OrderedFields(r);
    ReorderedText(ORDER, BACK, SignedKeys(), SignedNames(), Listed(r));
    RecordKeys(SignedNames(), InTextOrder(r));
    AscendingPrints(Record(SignedNames(), InTextOrder(r)));
  }

  lemma RecordKeys(keys: seq<Units>, fields: seq<Value>)
    requires |keys| == |fields|
    ensures Keys(Record(keys, fields)) == keys
  {
  }

  // ---- Receipts ----

  datatype Receipt = Receipt(
    version: Value, receiptId: Value, operationId: Value, orgId: Value, agentId: Value,
    serverReceivedAt: Value, seqNo: Value, chainHash: Value, queueMessageId: Value)

  function ListedReceipt(r: Receipt): (f: seq<Value>)
    ensures |f| == 9
  {
    [r.version, r.receiptId, r.operationId, r.orgId, r.agentId, r.serverReceivedAt, r.seqNo, r.chainHash, r.queueMessageId]
  }

  function ReceiptInTextOrder(r: Receipt): (f: seq<Value>)
    ensures |f| == 9
  {
    [r.agentId, r.chainHash, r.operationId, r.orgId, r.queueMessageId, r.receiptId, r.version, r.seqNo, r.serverReceivedAt]
  }

  function ReceiptNames(): (r: seq<Units>)
    ensures |r| == 9
  {
    [Ascii("agent_id"), Ascii("chain_hash"), Ascii("operation_id"), Ascii("org_id"), Ascii("queue_message_id"),
     Ascii("receipt_id"), Ascii("receipt_version"), Ascii("seq_no"), Ascii("server_received_at")]
  }

  const RECEIPT_ORDER: seq<nat> := [4, 7, 2, 3, 8, 1, 0, 6, 5]
  const RECEIPT_BACK: seq<nat> := [6, 5, 2, 3, 0, 8, 7, 1, 4]

  lemma ReceiptNamesAscend()
    ensures Ascends(ReceiptNames()) && AllDistinct(ReceiptNames())
  {
    hide Less, Ascii;
    Before("agent_id", "chain_hash", 0);
    Before("chain_hash", "operation_id", 0);
    Before("operation_id", "org_id", 1);
    Before("org_id", "queue_message_id", 0);
    Before("queue_message_id", "receipt_id", 0);
    Before("receipt_id", "receipt_version", 8);
    Before("receipt_version", "seq_no", 0);
    Before("seq_no", "server_received_at", 2);
    NextsAreEnough(ReceiptNames());
  }

  lemma ReceiptOrder()
    ensures Reorders(RECEIPT_ORDER, RECEIPT_BACK, ReceiptKeys(), ReceiptNames())
  {
    hide Ascii;
  }

  lemma OrderedReceipt(r: Receipt)
    ensures forall i :: 0 <= i < |RECEIPT_ORDER| ==> RECEIPT_ORDER[i] < 9
    ensures Reordered(RECEIPT_ORDER, ListedReceipt(r)) == ReceiptInTextOrder(r)
  {
  }

  /** And so has the text under a receipt's hash. */
  lemma ReceiptTextExactly(r: Receipt)
    requires forall i :: 0 <= i < 9 ==> Proper(ListedReceipt(r)[i])
    ensures Canon(Obj(Record(ReceiptKeys(), ListedReceipt(r))))
         == Print(Obj(NormEntries(Record(ReceiptNames(), ReceiptInTextOrder(r)))))
  {
    hide Proper, Canon, Print, NormEntries, ListedReceipt, ReceiptInTextOrder, ReceiptKeys, ReceiptNames;
    hide RECEIPT_ORDER, RECEIPT_BACK, Ascends, Reorders, AllDistinct;
    ReceiptKeysDistinct();
    ReceiptNamesAscend();
    ReceiptOrder();
    OrderedReceipt(r);
    ReorderedText(RECEIPT_ORDER, RECEIPT_BACK, ReceiptKeys(), ReceiptNames(), ListedReceipt(r));
    RecordKeys(ReceiptNames(), ReceiptInTextOrder(r));
    AscendingPrints(Record(ReceiptNames(), ReceiptInTextOrder(r)));
  }

  // ---- The page cursor ----

  /** A cursor is the encoding of this text. */
  lemma CursorText(c: P.Cursor)
    ensures P.EncodeCursor(c)
         == B.Encode(HB.TextEncode(Ascii("{\"created_at\":") + DecimalUnits(c.createdAt) + Ascii(",\"id\":") + Quote(c.id) + Ascii("}")))
  {
    hide Quote, DecimalUnits, HB.TextEncode, B.Encode;
    PayloadText(c);
  }

  lemma PayloadText(c: P.Cursor)
    ensures Print(P.Payload(c))
         == Ascii("{\"created_at\":") + DecimalUnits(c.createdAt) + Ascii(",\"id\":") + Quote(c.id) + Ascii("}")
  {
    var at, id := Entry(P.CREATED_AT, Num(c.createdAt)), Entry(P.ID, Str(c.id));
    var es := [at, id];
    TwoMembers(at, id);
    CreatedAtText();
    IdText();
    PrintsNumber(at);
    PrintsText(id);
    assert P.Payload(c) == Obj(es);
    hide Quote, DecimalUnits, Print, PrintEntry, P.CREATED_AT, P.ID, Ascii;
    Joined(Ascii("{"), Quote(P.CREATED_AT), Ascii(":"), DecimalUnits(c.createdAt), Ascii(","), Quote(P.ID), Ascii(":"), Quote(c.id), Ascii("}"));
  }

  lemma Joined(a: Units, b: Units, c: Units, d: Units, e: Units, f: Units, g: Units, h: Units, i: Units)
    ensures a + ((b + c + d) + e + (f + g + h)) + i == (a + b + c) + d + (e + f + g) + h + i
  {
  }

  lemma TwoMembers(at: Entry, id: Entry)
    ensures Print(Obj([at, id])) == Ascii("{") + (PrintEntry(at) + Ascii(",") + PrintEntry(id)) + Ascii("}")
  {
    var es := [at, id];
    assert es[1..] == [id];
    EntriesCons(es);
    EntriesCons([id]);
    assert Ascii("{") == [OPEN_BRACE] && Ascii("}") == [CLOSE_BRACE] && Ascii(",") == [COMMA];
    hide PrintEntries, PrintEntry;
  }

  lemma PrintsNumber(e: Entry)
    requires e.value.Num?
    ensures PrintEntry(e) == Quote(e.key) + Ascii(":") + DecimalUnits(e.value.n)
  {
    hide Quote, DecimalUnits;
    assert Ascii(":") == [COLON];
  }

  lemma PrintsText(e: Entry)
    requires e.value.Str?
    ensures PrintEntry(e) == Quote(e.key) + Ascii(":") + Quote(e.value.s)
  {
    hide Quote;
    assert Ascii(":") == [COLON];
  }

  lemma AsciiConcat(a: string, b: string, c: string)
    ensures Ascii(a + b + c) == Ascii(a) + Ascii(b) + Ascii(c)
  {
  }

  const CREATED_AT_QUOTED := "\"created_at\""

  lemma CreatedAtPlain()
    ensures forall i :: 0 <= i < |P.CREATED_AT| ==> Unescaped(P.CREATED_AT[i])
  {
  }

  lemma CreatedAtUnits()
    ensures [34] + P.CREATED_AT + [34] == Ascii(CREATED_AT_QUOTED)
  {
  }

  lemma CreatedAtNamed()
    ensures "{\"created_at\":" == "{" + CREATED_AT_QUOTED + ":"
  {
  }

  lemma CreatedAtText()
    ensures Ascii("{\"created_at\":") == Ascii("{") + Quote(P.CREATED_AT) + Ascii(":")
  {
    hide Quote, P.CREATED_AT, CREATED_AT_QUOTED, Ascii;
    CreatedAtPlain();
    CreatedAtUnits();
    CreatedAtNamed();
    QuotePlain(P.CREATED_AT);
    AsciiConcat("{", CREATED_AT_QUOTED, ":");
  }

  lemma IdText()
    ensures Ascii(",\"id\":") == Ascii(",") + Quote(P.ID) + Ascii(":")
  {
    QuotePlain(P.ID);
    hide Quote;
    var q := "\"id\"";
    assert [34] + P.ID + [34] == Ascii(q);
    AsciiConcat(",", q, ":");
    assert ",\"id\":" == "," + q + ":";
  }

  /** What a text is a cursor for: JSON with an integer under created_at and a string under id. */
  lemma CursorExactly(p: P.Platform, text: string, c: P.Cursor)
    ensures P.DecodeCursor(p, text) == Some(c) <==>
              && B.Decode(text).Some?
              && var v := p.jsonParse(p.textDecode(B.Decode(text).value));
              && v.Some? && v.value.Obj?
              && P.Member(v.value.entries, Ascii("created_at")) == Num(c.createdAt)
              && P.Member(v.value.entries, Ascii("id")) == Str(c.id)
  {
    CursorNames();
    hide B.Decode, P.Member, P.CREATED_AT, P.ID, Ascii;
  }

  lemma CursorNames()
    ensures P.CREATED_AT == Ascii("created_at") && P.ID == Ascii("id")
  {
  }
}
