/** Source documents, evidence chunks and disclosures: the upsert primitives and the OpenDART batch loop.
    SHA-256 is modelled as injective: a digest is the text it was taken of. */
module Documents {
  import opened Prelude

  type Time = int

  datatype Digest = Sha256(text: string)

  /** The columns that identify a document; no upsert ever rewrites them. */
  datatype Key = Key(sourceName: string, externalId: Option<string>, contentHash: Digest)

  /** The columns every upsert overwrites. */
  datatype Body = Body(
    ticker: string,
    sourceType: string,
    sourceUrl: Option<string>,
    title: string,
    publishedAt: Option<Time>,
    rawContent: string,
    metadata: string)

  datatype Document = Document(key: Key, body: Body, fetchedAt: Time)

  /** A document's id is its position; documents are never deleted. */
  type Documents = seq<Document>

  /** The unique constraint on (source_name, external_id), where a missing external id never conflicts. */
  ghost predicate UniqueExternalIds(docs: Documents) {
    forall i, j ::
      && 0 <= i < |docs|
      && 0 <= j < |docs|
      && docs[i].key.externalId.Some?
      && MatchesId(docs[i], docs[j].key)
      ==> i == j
  }

  ghost predicate UniqueContent(docs: Documents) {
    forall i, j ::
      0 <= i < |docs| && 0 <= j < |docs| && docs[i].key.contentHash == docs[j].key.contentHash ==> i == j
  }

  ghost predicate Sound(docs: Documents) {
    UniqueExternalIds(docs) && UniqueContent(docs)
  }

  predicate MatchesId(doc: Document, key: Key) {
    doc.key.sourceName == key.sourceName && doc.key.externalId == key.externalId
  }

  /** The lookup: by source and external id when there is a non-empty one, then by content hash. */
  ghost function Find(docs: Documents, key: Key): (r: Option<nat>)
    ensures r.Some? ==> r.value < |docs|
  {
    if key.externalId.Some? && key.externalId.value != "" && exists i :: 0 <= i < |docs| && MatchesId(docs[i], key) then
      var i: nat :| i < |docs| && MatchesId(docs[i], key);
      Some(i)
    else if exists i :: 0 <= i < |docs| && docs[i].key.contentHash == key.contentHash then
      var i: nat :| i < |docs| && docs[i].key.contentHash == key.contentHash;
      Some(i)
    else
      None
  }

  /** Whether inserting this key breaks the unique constraint; only an empty external id can, since a non-empty one
      has just been looked up. */
  predicate Clashes(docs: Documents, key: Key) {
    key.externalId.Some? && exists i :: 0 <= i < |docs| && MatchesId(docs[i], key)
  }

  datatype StoreError = IntegrityError

  ghost function Upsert(docs: Documents, key: Key, body: Body, now: Time): Result<(Documents, nat), StoreError> {
    match Find(docs, key)
    case Some(i) => Ok((docs[i := Document(docs[i].key, body, now)], i))
    case None => if Clashes(docs, key) then Err(IntegrityError) else Ok((docs + [Document(key, body, now)], |docs|))
  }

  /** Every upsert keeps both keys unique, leaves every other document alone, never changes a key, and answers with the
      document now holding the body; it fails exactly on a repeated empty external id with new content. */
  lemma UpsertKeepsKeysUnique(docs: Documents, key: Key, body: Body, now: Time)
    requires Sound(docs)
    ensures match Upsert(docs, key, body, now)
            case Ok((after, id)) =>
              && Sound(after)
              && |docs| <= |after| <= |docs| + 1
              && id < |after|
              && after[id].body == body
              && (id < |docs| ==> |after| == |docs|)
              && (id == |docs| ==> after[id].key == key)
              && (forall i :: 0 <= i < |docs| ==> after[i].key == docs[i].key && (i != id ==> after[i] == docs[i]))
            case Err(_) =>
              && key.externalId == Some("")
              && (exists i :: 0 <= i < |docs| && MatchesId(docs[i], key))
              && forall i :: 0 <= i < |docs| ==> docs[i].key.contentHash != key.contentHash
  {
    var r := Find(docs, key);
    if r.None? {
      assert forall i :: 0 <= i < |docs| ==> docs[i].key.contentHash != key.contentHash;
      assert !Clashes(docs, key) ==> forall i :: 0 <= i < |docs| && key.externalId.Some? ==> !MatchesId(docs[i], key);
    }
  }

  /** Where an upsert goes: to the document of the same source and non-empty external id, else to one with the same
      content, else to a new document - which an empty external id that its source has used already does not allow. */
  lemma UpsertGoesExactly(docs: Documents, key: Key, body: Body, now: Time, i: nat)
    requires Sound(docs) && i < |docs|
    ensures var named := key.externalId.Some? && key.externalId.value != "";
            && (named && docs[i].key.sourceName == key.sourceName && docs[i].key.externalId == key.externalId ==>
                  Upsert(docs, key, body, now) == Ok((docs[i := Document(docs[i].key, body, now)], i)))
            && (docs[i].key.contentHash == key.contentHash
                && (named ==> forall d :: d in docs ==> !MatchesId(d, key)) ==>
                  Upsert(docs, key, body, now) == Ok((docs[i := Document(docs[i].key, body, now)], i)))
            && ((forall d :: d in docs ==>
                   (key.externalId.Some? ==> !MatchesId(d, key)) && d.key.contentHash != key.contentHash) ==>
                  Upsert(docs, key, body, now) == Ok((docs + [Document(key, body, now)], |docs|)))
            && (key.externalId == Some("") && MatchesId(docs[i], key)
                && (forall d :: d in docs ==> d.key.contentHash != key.contentHash) ==>
                  Upsert(docs, key, body, now).Err?)
  {
    if key.externalId.Some? && key.externalId.value != "" && MatchesId(docs[i], key) {
      assert forall j :: 0 <= j < |docs| && MatchesId(docs[j], key) ==> MatchesId(docs[j], docs[i].key);
    }
  }

  datatype Chunk = Chunk(
    ticker: string,
    documentId: nat,
    evidenceType: string,
    text: string,
    sourceUrl: Option<string>,
    publishedAt: Option<Time>,
    metadata: string,
    confidence: real,
    fetchedAt: Time)

  /** A publication date, or the fetch time that stands in for a missing one. */
  datatype Published = On(date: Time) | Fetched(at: Time)

  datatype Disclosure = Disclosure(
    ticker: string,
    title: string,
    disclosureType: string,
    publishedAt: Published,
    sourceUrl: string,
    documentId: nat,
    payload: string,
    archiveUri: Option<string>)

  /** Chunks by evidence id and OpenDART disclosures by receipt number: their unique constraints are the keys. */
  datatype Store = Store(docs: Documents, chunks: map<string, Chunk>, disclosures: map<string, Disclosure>)

  /** A provider item after its text fields are read: an empty receipt number is one the source skips. `raw` is the
      item's JSON text. */
  datatype Item = Item(receipt: string, title: string, disclosureType: string, date: Option<Time>, raw: string)

  datatype Counts = Counts(inserted: nat, updated: nat, skipped: nat)

  /** What is the same for a whole batch; `clean` is the provider-text cleaner. */
  datatype Batch = Batch(ticker: string, archiveUri: Option<string>, clean: string -> string, now: Time)

  const OPENDART := "OpenDART"

  function Url(item: Item): string {
    "https://dart.fss.or.kr/dsaf001/main.do?rcpNo=" + item.receipt
  }

  function KeyOf(item: Item): Key {
    Key(OPENDART, Some(item.receipt), Sha256(item.raw))
  }

  function Metadata(batch: Batch): string {
    OPENDART + match batch.archiveUri case None => "" case Some(uri) => uri
  }

  function BodyOf(batch: Batch, item: Item): Body {
    Body(batch.ticker, "disclosure", Some(Url(item)), item.title, item.date, item.raw, Metadata(batch))
  }

  function EvidenceId(batch: Batch, item: Item): string {
    "ev_opendart_" + batch.ticker + "_" + item.receipt
  }

  function ChunkOf(batch: Batch, item: Item, id: nat, confidence: real): Chunk {
    var cleaned := batch.clean(item.title);
    Chunk(batch.ticker, id, "disclosure", if cleaned != "" then cleaned else item.title, Some(Url(item)), item.date,
          Metadata(batch) + item.receipt, confidence, batch.now)
  }

  function DisclosureOf(batch: Batch, item: Item, id: nat): Disclosure {
    var published := if item.date.Some? then On(item.date.value) else Fetched(batch.now);
    Disclosure(batch.ticker, item.title, item.disclosureType, published, Url(item), id, item.raw, batch.archiveUri)
  }

  /** One evidence row: an existing one takes the new values but keeps its confidence. */
  function UpsertRow(chunks: map<string, Chunk>, ev: string, values: Chunk): map<string, Chunk> {
    chunks[ev := if ev in chunks then values.(confidence := chunks[ev].confidence) else values]
  }

  /** One item's evidence chunk: an existing one keeps its confidence, a new one starts at 0.9. */
  function UpsertChunk(chunks: map<string, Chunk>, batch: Batch, item: Item, id: nat): map<string, Chunk> {
    var ev := EvidenceId(batch, item);
    chunks[ev := ChunkOf(batch, item, id, if ev in chunks then chunks[ev].confidence else 0.9)]
  }

  /** One item of a batch. A non-empty receipt number never clashes, so the upsert cannot fail. */
  ghost function PersistItem(s: Store, batch: Batch, item: Item): Store {
    if item.receipt == "" then s else
    match Upsert(s.docs, KeyOf(item), BodyOf(batch, item), batch.now)
    case Ok((docs, id)) =>
      Store(docs, UpsertChunk(s.chunks, batch, item, id), s.disclosures[item.receipt := DisclosureOf(batch, item, id)])
    case Err(_) => s
  }

  function CountItem(s: Store, counts: Counts, item: Item): Counts {
    if item.receipt == "" then counts.(skipped := counts.skipped + 1)
    else if item.receipt in s.disclosures then counts.(updated := counts.updated + 1)
    else counts.(inserted := counts.inserted + 1)
  }

  /** The store and the counts after a batch, item by item. */
  ghost function PersistAll(s: Store, batch: Batch, items: seq<Item>): (Store, Counts) {
    if items == [] then (s, Counts(0, 0, 0)) else
    var (t, counts) := PersistAll(s, batch, items[..|items| - 1]);
    var item := items[|items| - 1];
    (PersistItem(t, batch, item), CountItem(t, counts, item))
  }

  // ---- Replaying a batch ----

  ghost predicate DistinctReceipts(items: seq<Item>) {
    forall i, j :: 0 <= i < j < |items| && items[i].receipt != "" ==> items[i].receipt != items[j].receipt
  }

  /** The document an item of the batch resolved to in the first pass. */
  ghost function Target(s: Store, batch: Batch, items: seq<Item>, k: nat): nat
    requires k < |items| && items[k].receipt != "" && Sound(s.docs)
  {
    var t := PersistAll(s, batch, items[..k]).0;
    match Find(t.docs, KeyOf(items[k])) case Some(i) => i case None => |t.docs|
  }

  /** Later tables keep the keys of earlier ones. */
  ghost predicate KeysKept(before: Documents, after: Documents) {
    |before| <= |after| && forall i :: 0 <= i < |before| ==> after[i].key == before[i].key
  }

  /** A document whose key is that of some item of the batch. */
  ghost predicate AddedBy(items: seq<Item>, doc: Document) {
    exists item :: item in items && item.receipt != "" && doc.key == KeyOf(item)
  }

  /** Every document beyond those before carries one of the batch's keys. */
  ghost predicate OnlyAdds(before: Documents, after: Documents, items: seq<Item>) {
    forall i :: |before| <= i < |after| ==> AddedBy(items, after[i])
  }

  /** What a batch can change: keys stay, and every new document carries one of the batch's receipts. */
  lemma {:induction false} PersistAllKeys(s: Store, batch: Batch, items: seq<Item>)
    requires Sound(s.docs)
    ensures var t := PersistAll(s, batch, items).0;
            Sound(t.docs) && KeysKept(s.docs, t.docs) && OnlyAdds(s.docs, t.docs, items)
  {
    if items != [] {
      var front, item := items[..|items| - 1], items[|items| - 1];
      PersistAllKeys(s, batch, front);
      var t := PersistAll(s, batch, front).0;
      assert items == front + [item];
      OnlyAddsMore(s.docs, t.docs, front, item);
      if item.receipt != "" {
        UpsertKeepsKeysUnique(t.docs, KeyOf(item), BodyOf(batch, item), batch.now);
        OnlyAddsThrough(s.docs, t.docs, PersistItem(t, batch, item).docs, items, item);
      }
    }
  }

  lemma OnlyAddsMore(before: Documents, after: Documents, items: seq<Item>, item: Item)
    requires OnlyAdds(before, after, items)
    ensures OnlyAdds(before, after, items + [item])
  {
    forall i | |before| <= i < |after| ensures AddedBy(items + [item], after[i]) {
      assert AddedBy(items, after[i]);
      var x :| x in items && x.receipt != "" && after[i].key == KeyOf(x);
      assert x in items + [item];
    }
  }

  lemma OnlyAddsThrough(before: Documents, middle: Documents, after: Documents, items: seq<Item>, item: Item)
    requires OnlyAdds(before, middle, items) && item in items && item.receipt != ""
    requires |after| <= |middle| + 1
    requires forall i :: 0 <= i < |middle| && i < |after| ==> after[i].key == middle[i].key
    requires |middle| < |after| ==> after[|middle|].key == KeyOf(item)
    ensures OnlyAdds(before, after, items)
  {
    forall i | |before| <= i < |after| ensures AddedBy(items, after[i]) {
      if i < |middle| { assert AddedBy(items, middle[i]); }
    }
  }

  lemma {:induction false} PersistAllSplit(s: Store, batch: Batch, a: seq<Item>, b: seq<Item>)
    ensures PersistAll(s, batch, a + b).0 == PersistAll(PersistAll(s, batch, a).0, batch, b).0
  {
    if b == [] {
      assert a + b == a;
    } else {
      PersistAllSplit(s, batch, a, b[..|b| - 1]);
      DropLastOfSum(a, b);
    }
  }

  lemma Prefix(s: Store, batch: Batch, items: seq<Item>, k: nat)
    requires k < |items|
    ensures PersistAll(s, batch, items[..k + 1]).0 == PersistItem(PersistAll(s, batch, items[..k]).0, batch, items[k])
    ensures PersistAll(s, batch, items[..k + 1]).1
            == CountItem(PersistAll(s, batch, items[..k]).0, PersistAll(s, batch, items[..k]).1, items[k])
  {
    assert items[..k + 1][..k] == items[..k];
  }

  /** Once a key has been upserted, later tables that add no document under its external id still resolve it to the
      same document. */
  lemma UpsertSticks(before: Documents, key: Key, body: Body, now: Time, after: Documents)
    requires Sound(before) && Sound(after) && key.externalId.Some? && key.externalId.value != ""
    requires KeysKept(Upsert(before, key, body, now).value.0, after)
    requires forall i :: |Upsert(before, key, body, now).value.0| <= i < |after| ==> !MatchesId(after[i], key)
    ensures Find(after, key) == Some(Upsert(before, key, body, now).value.1)
  {
    var (mid, id) := Upsert(before, key, body, now).value;
    UpsertKeepsKeysUnique(before, key, body, now);
    assert after[id].key == mid[id].key;
    assert forall i :: 0 <= i < |before| ==> after[i].key == mid[i].key == before[i].key;
    if MatchesId(after[id], key) {
      assert forall i :: 0 <= i < |after| && MatchesId(after[i], key) ==> MatchesId(after[i], after[id].key);
    } else {
      assert Find(before, key) == Some(id);
      assert forall i :: 0 <= i < |before| ==> !MatchesId(before[i], key);
      assert forall i :: 0 <= i < |after| ==> !MatchesId(after[i], key);
    }
  }

  /** What the rest of the batch adds carries other receipts. */
  lemma RestAvoids(t: Store, batch: Batch, items: seq<Item>, k: nat)
    requires Sound(t.docs) && DistinctReceipts(items) && k < |items| && items[k].receipt != ""
    ensures var end := PersistAll(t, batch, items[k + 1..]).0.docs;
            && Sound(end) && KeysKept(t.docs, end)
            && forall i :: |t.docs| <= i < |end| ==> !MatchesId(end[i], KeyOf(items[k]))
  {
    PersistAllKeys(t, batch, items[k + 1..]);
    var end := PersistAll(t, batch, items[k + 1..]).0.docs;
    forall i | |t.docs| <= i < |end| ensures !MatchesId(end[i], KeyOf(items[k])) {
      assert AddedBy(items[k + 1..], end[i]);
      var x :| x in items[k + 1..] && x.receipt != "" && end[i].key == KeyOf(x);
      var j :| 0 <= j < |items[k + 1..]| && items[k + 1..][j] == x;
      assert items[k + 1 + j] == x;
    }
  }

  /** After the whole batch every item resolves to the document it resolved to at its turn. */
  lemma TargetStable(s: Store, batch: Batch, items: seq<Item>, k: nat)
    requires Sound(s.docs) && DistinctReceipts(items) && k < |items| && items[k].receipt != ""
    ensures Find(PersistAll(s, batch, items).0.docs, KeyOf(items[k])) == Some(Target(s, batch, items, k))
  {
    var t, t' := PersistAll(s, batch, items[..k]).0, PersistAll(s, batch, items[..k + 1]).0;
    PersistAllKeys(s, batch, items[..k]);
    PersistAllKeys(s, batch, items[..k + 1]);
    SplitAt(items, k + 1);
    PersistAllSplit(s, batch, items[..k + 1], items[k + 1..]);
    RestAvoids(t', batch, items, k);
    Prefix(s, batch, items, k);
    PersistStep(t, batch, items[k]);
    UpsertSticks(t.docs, KeyOf(items[k]), BodyOf(batch, items[k]), batch.now, PersistAll(s, batch, items).0.docs);
  }

  /** One item with a receipt: where it goes, and what it writes. */
  lemma PersistStep(t: Store, batch: Batch, item: Item)
    requires Sound(t.docs) && item.receipt != ""
    ensures var id := match Find(t.docs, KeyOf(item)) case Some(i) => i case None => |t.docs|;
            var t' := PersistItem(t, batch, item);
            && Upsert(t.docs, KeyOf(item), BodyOf(batch, item), batch.now) == Ok((t'.docs, id))
            && t'.chunks == UpsertChunk(t.chunks, batch, item, id)
            && t'.disclosures == t.disclosures[item.receipt := DisclosureOf(batch, item, id)]
            && |t.docs| <= |t'.docs| && id < |t'.docs|
            && (forall d :: 0 <= d < |t.docs| && d != id ==> t'.docs[d] == t.docs[d])
            && t'.docs[id].body == BodyOf(batch, item) && t'.docs[id].fetchedAt == batch.now
            && (id < |t.docs| ==> |t'.docs| == |t.docs| && t'.docs[id].key == t.docs[id].key)
  {
    UpsertKeepsKeysUnique(t.docs, KeyOf(item), BodyOf(batch, item), batch.now);
  }

  /** The last of the first k items that wrote document d. */
  ghost function LastWriter(s: Store, batch: Batch, items: seq<Item>, k: nat, d: nat): (r: Option<nat>)
    requires k <= |items| && Sound(s.docs)
    ensures r.Some? ==> r.value < k && items[r.value].receipt != "" && Target(s, batch, items, r.value) == d
  {
    if k == 0 then None
    else if items[k - 1].receipt != "" && Target(s, batch, items, k - 1) == d then Some(k - 1)
    else LastWriter(s, batch, items, k - 1, d)
  }

  /** After the first k items each document they wrote holds what its last writer said. */
  ghost predicate DocsWritten(s: Store, batch: Batch, items: seq<Item>, k: nat, docs: Documents)
    requires k <= |items| && Sound(s.docs)
  {
    forall d: nat :: LastWriter(s, batch, items, k, d).Some? ==>
      && d < |docs|
      && docs[d].body == BodyOf(batch, items[LastWriter(s, batch, items, k, d).value])
      && docs[d].fetchedAt == batch.now
  }

  /** The rows under an item's own keys hold what the item says. */
  ghost predicate RowsWritten(batch: Batch, item: Item, target: nat, t: Store) {
    var ev := EvidenceId(batch, item);
    && ev in t.chunks
    && t.chunks[ev] == ChunkOf(batch, item, target, t.chunks[ev].confidence)
    && item.receipt in t.disclosures
    && t.disclosures[item.receipt] == DisclosureOf(batch, item, target)
  }

  /** What an item of the batch says, in the rows that hold it. */
  ghost predicate SaysItem(batch: Batch, item: Item, d: Disclosure, c: Chunk, document: nat) {
    var url := "https://dart.fss.or.kr/dsaf001/main.do?rcpNo=" + item.receipt;
    && d.ticker == c.ticker == batch.ticker && d.documentId == c.documentId == document
    && d.title == item.title && d.disclosureType == item.disclosureType && d.payload == item.raw
    && d.sourceUrl == url && c.sourceUrl == Some(url) && d.archiveUri == batch.archiveUri
    && d.publishedAt == (if item.date == None then Fetched(batch.now) else On(item.date.value))
    && c.publishedAt == item.date && c.fetchedAt == batch.now && c.evidenceType == "disclosure"
    && (batch.clean(item.title) != "" ==> c.text == batch.clean(item.title))
    && (batch.clean(item.title) == "" ==> c.text == item.title)
    && c.metadata == "OpenDART" + (if batch.archiveUri.Some? then batch.archiveUri.value else "") + item.receipt
  }

  /** What an item of the batch says, in the body of the document that it was the last to write. */
  ghost predicate SaysBody(batch: Batch, item: Item, body: Body) {
    && body.ticker == batch.ticker && body.sourceType == "disclosure" && body.title == item.title
    && body.sourceUrl == Some("https://dart.fss.or.kr/dsaf001/main.do?rcpNo=" + item.receipt)
    && body.publishedAt == item.date && body.rawContent == item.raw
    && body.metadata == "OpenDART" + if batch.archiveUri.Some? then batch.archiveUri.value else ""
  }

  ghost predicate KeyedByItem(doc: Document, items: seq<Item>) {
    exists item :: item in items && DocumentOf(doc, item) && doc.key.contentHash == Sha256(item.raw)
  }

  /** The document of an item says what the item says, unless a later one of the batch wrote it again, and was fetched
      now; and every document that the batch adds is keyed by one of its receipts and that item's content. */
  lemma DocumentsAreStored(s: Store, batch: Batch, items: seq<Item>, k: nat)
    requires Sound(s.docs) && DistinctReceipts(items) && k < |items| && items[k].receipt != ""
    ensures var docs, target := PersistAll(s, batch, items).0.docs, Target(s, batch, items, k);
            && target < |docs| && docs[target].fetchedAt == batch.now
            && ((forall m :: k < m < |items| && items[m].receipt != "" ==> Target(s, batch, items, m) != target) ==>
                  SaysBody(batch, items[k], docs[target].body))
            && forall i :: |s.docs| <= i < |docs| ==> KeyedByItem(docs[i], items)
  {
    FirstPass(s, batch, items, |items|);
    TakeAll(items);
    LastWriterAfter(s, batch, items, |items|, k);
    WrittenBodies(s, batch, items, PersistAll(s, batch, items).0.docs, k);
    PersistAllKeys(s, batch, items);
    AddedAreKeyed(s.docs, PersistAll(s, batch, items).0.docs, items);
  }

  lemma WrittenBodies(s: Store, batch: Batch, items: seq<Item>, docs: Documents, k: nat)
    requires Sound(s.docs) && k < |items| && items[k].receipt != "" && DocsWritten(s, batch, items, |items|, docs)
    requires var last := LastWriter(s, batch, items, |items|, Target(s, batch, items, k));
             && last.Some? && k <= last.value < |items| && items[last.value].receipt != ""
             && Target(s, batch, items, last.value) == Target(s, batch, items, k)
    ensures var target := Target(s, batch, items, k);
            && target < |docs| && docs[target].fetchedAt == batch.now
            && ((forall m :: k < m < |items| && items[m].receipt != "" ==> Target(s, batch, items, m) != target) ==>
                  SaysBody(batch, items[k], docs[target].body))
  {}

  lemma AddedAreKeyed(before: Documents, docs: Documents, items: seq<Item>)
    requires OnlyAdds(before, docs, items)
    ensures forall i :: |before| <= i < |docs| ==> KeyedByItem(docs[i], items)
  {
    forall i | |before| <= i < |docs| ensures KeyedByItem(docs[i], items) {
      assert AddedBy(items, docs[i]);
      var item :| item in items && item.receipt != "" && docs[i].key == KeyOf(item);
      assert DocumentOf(docs[i], item);
    }
  }

  lemma {:induction false} LastWriterAfter(s: Store, batch: Batch, items: seq<Item>, n: nat, k: nat)
    requires Sound(s.docs) && k < n <= |items| && items[k].receipt != ""
    ensures var last := LastWriter(s, batch, items, n, Target(s, batch, items, k));
            && last.Some? && k <= last.value < n && items[last.value].receipt != ""
            && Target(s, batch, items, last.value) == Target(s, batch, items, k)
  {
    if k < n - 1 { LastWriterAfter(s, batch, items, n - 1, k); }
  }

  /** A batch with distinct receipts stores every item: its disclosure and its chunk say what it says and point to its
      document. */
  lemma ItemsAreStored(s: Store, batch: Batch, items: seq<Item>, k: nat)
    requires Sound(s.docs) && DistinctReceipts(items) && k < |items| && items[k].receipt != ""
    ensures var t, item := PersistAll(s, batch, items).0, items[k];
            var ev := "ev_opendart_" + batch.ticker + "_" + item.receipt;
            && item.receipt in t.disclosures && ev in t.chunks
            && SaysItem(batch, item, t.disclosures[item.receipt], t.chunks[ev], Target(s, batch, items, k))
            && (ev !in s.chunks ==> t.chunks[ev].confidence == 0.9)
            && (ev in s.chunks ==> t.chunks[ev].confidence == s.chunks[ev].confidence)
  {
    FirstPass(s, batch, items, |items|);
    TakeAll(items);
    ConfidenceKept(s, batch, items, items[k]);
    assert RowsWritten(batch, items[k], Target(s, batch, items, k), PersistAll(s, batch, items[..|items|]).0);
  }

  lemma {:induction false} ConfidenceKept(s: Store, batch: Batch, items: seq<Item>, item: Item)
    ensures var ev, t := EvidenceId(batch, item), PersistAll(s, batch, items).0;
            && (ev in s.chunks ==> ev in t.chunks && t.chunks[ev].confidence == s.chunks[ev].confidence)
            && (ev !in s.chunks && ev in t.chunks ==> t.chunks[ev].confidence == 0.9)
  {
    if items != [] {
      ConfidenceKept(s, batch, items[..|items| - 1], item);
    }
  }

  lemma EvidenceIdInjective(batch: Batch, a: Item, b: Item)
    ensures EvidenceId(batch, a) == EvidenceId(batch, b) ==> a.receipt == b.receipt
  {
    var prefix := "ev_opendart_" + batch.ticker + "_";
    assert EvidenceId(batch, a)[|prefix|..] == a.receipt;
    assert EvidenceId(batch, b)[|prefix|..] == b.receipt;
  }

  lemma {:induction false} FirstPass(s: Store, batch: Batch, items: seq<Item>, k: nat)
    requires Sound(s.docs) && DistinctReceipts(items) && k <= |items|
    ensures DocsWritten(s, batch, items, k, PersistAll(s, batch, items[..k]).0.docs)
    ensures forall j {:trigger items[j]} :: 0 <= j < k && items[j].receipt != "" ==>
              RowsWritten(batch, items[j], Target(s, batch, items, j), PersistAll(s, batch, items[..k]).0)
  {
    if k > 0 {
      FirstPass(s, batch, items, k - 1);
      Prefix(s, batch, items, k - 1);
      PersistAllKeys(s, batch, items[..k - 1]);
      FirstPassStep(s, batch, items, k, PersistAll(s, batch, items[..k - 1]).0, PersistAll(s, batch, items[..k]).0);
    }
  }

  lemma FirstPassStep(s: Store, batch: Batch, items: seq<Item>, k: nat, t: Store, t': Store)
    requires Sound(s.docs) && DistinctReceipts(items) && 0 < k <= |items| && Sound(t.docs)
    requires t == PersistAll(s, batch, items[..k - 1]).0 && t' == PersistItem(t, batch, items[k - 1])
    requires DocsWritten(s, batch, items, k - 1, t.docs)
    requires forall j {:trigger items[j]} :: 0 <= j < k - 1 && items[j].receipt != "" ==>
               RowsWritten(batch, items[j], Target(s, batch, items, j), t)
    ensures DocsWritten(s, batch, items, k, t'.docs)
    ensures forall j {:trigger items[j]} :: 0 <= j < k && items[j].receipt != "" ==>
              RowsWritten(batch, items[j], Target(s, batch, items, j), t')
  {
    if items[k - 1].receipt != "" {
      PersistStep(t, batch, items[k - 1]);
      FirstPassDocs(s, batch, items, k, t.docs, t'.docs);
      FirstPassRows(s, batch, items, k, t, t');
    }
  }

  lemma FirstPassDocs(s: Store, batch: Batch, items: seq<Item>, k: nat, docs: Documents, docs': Documents)
    requires Sound(s.docs) && 0 < k <= |items| && items[k - 1].receipt != ""
    requires DocsWritten(s, batch, items, k - 1, docs) && |docs| <= |docs'|
    requires var id := Target(s, batch, items, k - 1);
             && id < |docs'| && docs'[id].body == BodyOf(batch, items[k - 1]) && docs'[id].fetchedAt == batch.now
             && forall d :: 0 <= d < |docs| && d != id ==> docs'[d] == docs[d]
    ensures DocsWritten(s, batch, items, k, docs')
  {
    forall d: nat | LastWriter(s, batch, items, k, d).Some?
      ensures d < |docs'| && docs'[d].fetchedAt == batch.now
      ensures docs'[d].body == BodyOf(batch, items[LastWriter(s, batch, items, k, d).value])
    {
      if d != Target(s, batch, items, k - 1) {
        assert LastWriter(s, batch, items, k - 1, d).Some?;
      }
    }
  }

  lemma FirstPassRows(s: Store, batch: Batch, items: seq<Item>, k: nat, t: Store, t': Store)
    requires Sound(s.docs) && DistinctReceipts(items) && 0 < k <= |items| && items[k - 1].receipt != ""
    requires var id := Target(s, batch, items, k - 1);
             && t'.chunks == UpsertChunk(t.chunks, batch, items[k - 1], id)
             && t'.disclosures == t.disclosures[items[k - 1].receipt := DisclosureOf(batch, items[k - 1], id)]
    requires forall j {:trigger items[j]} :: 0 <= j < k - 1 && items[j].receipt != "" ==>
               RowsWritten(batch, items[j], Target(s, batch, items, j), t)
    ensures forall j {:trigger items[j]} :: 0 <= j < k && items[j].receipt != "" ==>
              RowsWritten(batch, items[j], Target(s, batch, items, j), t')
  {
    forall j {:trigger items[j]} | 0 <= j < k && items[j].receipt != ""
      ensures RowsWritten(batch, items[j], Target(s, batch, items, j), t')
    {
      if j < k - 1 {
        assert RowsWritten(batch, items[j], Target(s, batch, items, j), t);
        EvidenceIdInjective(batch, items[j], items[k - 1]);
      }
    }
  }

  /** The finished table with the bodies that the first k items of a replay have rewritten. */
  ghost predicate ReplayedDocs(s: Store, batch: Batch, items: seq<Item>, k: nat, end: Documents, docs: Documents)
    requires k <= |items| && Sound(s.docs)
  {
    && |docs| == |end|
    && forall d: nat :: d < |docs| ==>
         docs[d] == match LastWriter(s, batch, items, k, d)
                    case None => end[d]
                    case Some(j) => Document(end[d].key, BodyOf(batch, items[j]), batch.now)
  }

  /** Replaying the first k items on the finished store: keys, chunks and disclosures stay as they are, and each
      document holds what its last writer so far says. */
  lemma {:induction false} SecondPass(s: Store, batch: Batch, items: seq<Item>, k: nat)
    requires Sound(s.docs) && DistinctReceipts(items) && k <= |items|
    ensures var end := PersistAll(s, batch, items).0;
            var u := PersistAll(end, batch, items[..k]).0;
            && u.chunks == end.chunks && u.disclosures == end.disclosures
            && ReplayedDocs(s, batch, items, k, end.docs, u.docs)
  {
    if k > 0 {
      SecondPass(s, batch, items, k - 1);
      var end := PersistAll(s, batch, items).0;
      Prefix(end, batch, items, k - 1);
      var u := PersistAll(end, batch, items[..k - 1]).0;
      if items[k - 1].receipt != "" {
        RowsAtEnd(s, batch, items, k - 1);
        PersistAllKeys(s, batch, items);
        PersistAllKeys(end, batch, items[..k - 1]);
        TargetStable(s, batch, items, k - 1);
        SecondPassItem(s, batch, items, k, end, u);
      } else {
        assert forall d: nat :: LastWriter(s, batch, items, k, d) == LastWriter(s, batch, items, k - 1, d);
      }
    }
  }

  lemma RowsAtEnd(s: Store, batch: Batch, items: seq<Item>, k: nat)
    requires Sound(s.docs) && DistinctReceipts(items) && k < |items| && items[k].receipt != ""
    ensures RowsWritten(batch, items[k], Target(s, batch, items, k), PersistAll(s, batch, items).0)
  {
    assert items[..|items|] == items;
    FirstPass(s, batch, items, |items|);
  }

  lemma SecondPassItem(s: Store, batch: Batch, items: seq<Item>, k: nat, end: Store, u: Store)
    requires Sound(s.docs) && 0 < k <= |items| && items[k - 1].receipt != ""
    requires Sound(end.docs) && Sound(u.docs) && u.chunks == end.chunks && u.disclosures == end.disclosures
    requires ReplayedDocs(s, batch, items, k - 1, end.docs, u.docs)
    requires Find(end.docs, KeyOf(items[k - 1])) == Some(Target(s, batch, items, k - 1))
    requires RowsWritten(batch, items[k - 1], Target(s, batch, items, k - 1), end)
    ensures var u' := PersistItem(u, batch, items[k - 1]);
            && u'.chunks == end.chunks && u'.disclosures == end.disclosures
            && ReplayedDocs(s, batch, items, k, end.docs, u'.docs)
  {
    SameFind(end.docs, u.docs, KeyOf(items[k - 1]));
    PersistStep(u, batch, items[k - 1]);
    ReplayedDocsStep(s, batch, items, k, end.docs, u.docs, PersistItem(u, batch, items[k - 1]).docs);
  }

  lemma ReplayedDocsStep(
      s: Store, batch: Batch, items: seq<Item>, k: nat, end: Documents, docs: Documents, docs': Documents)
    requires Sound(s.docs) && 0 < k <= |items| && items[k - 1].receipt != ""
    requires ReplayedDocs(s, batch, items, k - 1, end, docs) && |docs'| == |docs|
    requires var id := Target(s, batch, items, k - 1);
             && id < |docs'| && docs'[id] == Document(docs[id].key, BodyOf(batch, items[k - 1]), batch.now)
             && forall d :: 0 <= d < |docs| && d != id ==> docs'[d] == docs[d]
    ensures ReplayedDocs(s, batch, items, k, end, docs')
  {}

  /** Every item of a replay finds its disclosure, so insertions become updates. */
  lemma {:induction false} ReplayCounts(s: Store, batch: Batch, items: seq<Item>, k: nat)
    requires Sound(s.docs) && DistinctReceipts(items) && k <= |items|
    ensures var (_, first) := PersistAll(s, batch, items[..k]);
            PersistAll(PersistAll(s, batch, items).0, batch, items[..k]).1
            == Counts(0, first.inserted + first.updated, first.skipped)
  {
    if k > 0 {
      ReplayCounts(s, batch, items, k - 1);
      var end := PersistAll(s, batch, items).0;
      Prefix(s, batch, items, k - 1);
      Prefix(end, batch, items, k - 1);
      SecondPass(s, batch, items, k - 1);
      if items[k - 1].receipt != "" { RowsAtEnd(s, batch, items, k - 1); }
      var (t, first) := PersistAll(s, batch, items[..k - 1]);
      var (u, second) := PersistAll(end, batch, items[..k - 1]);
      CountsAsUpdate(t, u, first, second, items[k - 1]);
    }
  }

  lemma CountsAsUpdate(t: Store, u: Store, first: Counts, second: Counts, item: Item)
    requires second == Counts(0, first.inserted + first.updated, first.skipped)
    requires item.receipt != "" ==> item.receipt in u.disclosures
    ensures var next := CountItem(t, first, item);
            CountItem(u, second, item) == Counts(0, next.inserted + next.updated, next.skipped)
  {}

  lemma SameFind(a: Documents, b: Documents, key: Key)
    requires |a| == |b| && Sound(a) && forall d :: 0 <= d < |a| ==> a[d].key == b[d].key
    ensures Find(a, key) == Find(b, key)
  {
    assert forall d :: 0 <= d < |a| ==> (MatchesId(a[d], key) <==> MatchesId(b[d], key));
  }

  /** Replaying a batch with distinct receipt numbers changes nothing, and turns every insertion into an update. */
  lemma ReplayUnchanged(s: Store, batch: Batch, items: seq<Item>)
    requires Sound(s.docs) && DistinctReceipts(items)
    ensures var (t, first) := PersistAll(s, batch, items);
            PersistAll(t, batch, items) == (t, Counts(0, first.inserted + first.updated, first.skipped))
  {
    assert items[..|items|] == items;
    var end := PersistAll(s, batch, items).0;
    FirstPass(s, batch, items, |items|);
    SecondPass(s, batch, items, |items|);
    ReplayCounts(s, batch, items, |items|);
    var u := PersistAll(end, batch, items).0;
    forall d | 0 <= d < |end.docs| ensures u.docs[d] == end.docs[d] {}
    assert u.docs == end.docs;
  }

  // ---- Fetch times ----

  function Timeless(s: Store): Store {
    Store(
      seq(|s.docs|, i requires 0 <= i < |s.docs| => s.docs[i].(fetchedAt := 0)),
      map ev | ev in s.chunks :: s.chunks[ev].(fetchedAt := 0),
      map r | r in s.disclosures :: TimelessRow(s.disclosures[r]))
  }

  function TimelessRow(row: Disclosure): Disclosure {
    row.(publishedAt := if row.publishedAt.Fetched? then Fetched(0) else row.publishedAt)
  }

  lemma {:induction false} TimelessCommutes(s: Store, batch: Batch, items: seq<Item>)
    requires Sound(s.docs)
    ensures var (t, counts) := PersistAll(s, batch, items);
            PersistAll(Timeless(s), batch.(now := 0), items) == (Timeless(t), counts)
  {
    if items != [] {
      var front, item := items[..|items| - 1], items[|items| - 1];
      TimelessCommutes(s, batch, front);
      var t := PersistAll(s, batch, front).0;
      if item.receipt != "" {
        PersistAllKeys(s, batch, front);
        SameFind(t.docs, Timeless(t).docs, KeyOf(item));
        TimelessItem(t, batch, item);
      }
    }
  }

  lemma TimelessItem(t: Store, batch: Batch, item: Item)
    requires Sound(t.docs) && Sound(Timeless(t).docs) && item.receipt != ""
    requires Find(t.docs, KeyOf(item)) == Find(Timeless(t).docs, KeyOf(item))
    ensures PersistItem(Timeless(t), batch.(now := 0), item) == Timeless(PersistItem(t, batch, item))
  {
    var t', id := PersistItem(t, batch, item), match Find(t.docs, KeyOf(item)) case Some(i) => i case None => |t.docs|;
    PersistStep(t, batch, item);
    PersistStep(Timeless(t), batch.(now := 0), item);
    TimelessDocs(t, batch, item);
    TimelessChunks(t, batch, item, id);
    TimelessDisclosures(t, batch, item, id);
  }

  lemma TimelessDocs(t: Store, batch: Batch, item: Item)
    requires Sound(t.docs) && Sound(Timeless(t).docs) && item.receipt != ""
    requires Find(t.docs, KeyOf(item)) == Find(Timeless(t).docs, KeyOf(item))
    ensures PersistItem(Timeless(t), batch.(now := 0), item).docs == Timeless(PersistItem(t, batch, item)).docs
  {
    PersistStep(t, batch, item);
    PersistStep(Timeless(t), batch.(now := 0), item);
  }

  lemma TimelessChunks(t: Store, batch: Batch, item: Item, id: nat)
    ensures UpsertChunk(Timeless(t).chunks, batch.(now := 0), item, id)
         == Timeless(t.(chunks := UpsertChunk(t.chunks, batch, item, id))).chunks
  {}

  lemma TimelessDisclosures(t: Store, batch: Batch, item: Item, id: nat)
    ensures Timeless(t).disclosures[item.receipt := DisclosureOf(batch.(now := 0), item, id)]
         == Timeless(t.(disclosures := t.disclosures[item.receipt := DisclosureOf(batch, item, id)])).disclosures
  {}

  /** A replay at any later time leaves the same documents, chunks and disclosures but for the fetch times, and counts
      every earlier insertion as an update. */
  lemma ReplayIsIdempotent(s: Store, batch: Batch, items: seq<Item>, later: Time)
    requires Sound(s.docs) && DistinctReceipts(items)
    ensures var (t, first) := PersistAll(s, batch, items);
            var (u, second) := PersistAll(t, batch.(now := later), items);
            && Timeless(u) == Timeless(t)
            && second == Counts(0, first.inserted + first.updated, first.skipped)
  {
    var t := PersistAll(s, batch, items).0;
    PersistAllKeys(s, batch, items);
    TimelessCommutes(s, batch, items);
    TimelessReplay(t, batch, items, later);
    TimelessSound(s);
    ReplayUnchanged(Timeless(s), batch.(now := 0), items);
  }

  lemma TimelessReplay(t: Store, batch: Batch, items: seq<Item>, later: Time)
    requires Sound(t.docs)
    ensures var (u, counts) := PersistAll(t, batch.(now := later), items);
            PersistAll(Timeless(t), batch.(now := 0), items) == (Timeless(u), counts)
  {
    TimelessCommutes(t, batch.(now := later), items);
    assert batch.(now := later).(now := 0) == batch.(now := 0);
  }

  lemma TimelessSound(s: Store)
    requires Sound(s.docs)
    ensures Sound(Timeless(s).docs)
  {}

  // ---- Repeated receipt numbers ----

  /** What matters of an item's turn: its receipt, whether it adds a document or a chunk - which flushes everything
      pending, while overwriting them does not - and whether its disclosure is new. */
  datatype Turn = Turn(receipt: string, flushes: bool, isNew: bool)

  ghost function TurnOf(t: Store, batch: Batch, item: Item): Turn {
    Turn(item.receipt, Find(t.docs, KeyOf(item)).None? || EvidenceId(batch, item) !in t.chunks,
         item.receipt !in t.disclosures)
  }

  ghost function Turns(s: Store, batch: Batch, items: seq<Item>): (r: seq<Turn>)
    ensures |r| == |items| && forall k :: 0 <= k < |r| ==> r[k].receipt == items[k].receipt
  {
    seq(|items|, k requires 0 <= k < |items| => TurnOf(PersistAll(s, batch, items[..k]).0, batch, items[k]))
  }

  predicate Flushes(turn: Turn) {
    turn.receipt != "" && turn.flushes
  }

  /** The disclosures added but not flushed when the k-th turn comes. A lookup does not see them. */
  function Pending(turns: seq<Turn>, k: nat): set<string>
    requires k <= |turns|
  {
    if k == 0 then {}
    else
      NextPending(turns[k - 1], Pending(turns, k - 1))
  }

  function NextPending(turn: Turn, before: set<string>): set<string> {
    var seen := if Flushes(turn) then {} else before;
    if turn.receipt == "" || !turn.isNew then seen else seen + {turn.receipt}
  }

  /** A turn whose lookup misses its receipt among the pending ones. */
  predicate Misses(turn: Turn, before: set<string>) {
    turn.receipt != "" && !turn.flushes && turn.receipt in before
  }

  /** The k-th turn's lookup misses a pending disclosure with its receipt, so a second one is added. */
  predicate CollidesAt(turns: seq<Turn>, k: nat)
    requires k < |turns|
  {
    Misses(turns[k], Pending(turns, k))
  }

  predicate Collides(turns: seq<Turn>, n: nat)
    requires n <= |turns|
  {
    exists k :: 0 <= k < n && CollidesAt(turns, k)
  }

  lemma NoneCollides(turns: seq<Turn>, k: nat)
    requires k < |turns| && !Collides(turns, k) && !CollidesAt(turns, k)
    ensures !Collides(turns, k + 1)
  {}

  /** The j-th turn adds a disclosure and nothing is flushed after it before the k-th. */
  predicate StillPending(turns: seq<Turn>, j: nat, k: nat)
    requires j < |turns| && k <= |turns|
  {
    turns[j].receipt != "" && turns[j].isNew && forall m :: j < m < k ==> !Flushes(turns[m])
  }

  lemma {:induction false} PendingExact(turns: seq<Turn>, k: nat, receipt: string)
    requires k <= |turns|
    ensures receipt in Pending(turns, k)
       <==> exists j :: 0 <= j < k && turns[j].receipt == receipt && StillPending(turns, j, k)
  {
    if k > 0 {
      PendingExact(turns, k - 1, receipt);
      var turn := turns[k - 1];
      if turn.receipt == receipt && receipt != "" && turn.isNew {
        assert StillPending(turns, k - 1, k);
      } else {
        forall j | 0 <= j < k - 1 && turns[j].receipt == receipt
          ensures StillPending(turns, j, k) <==> StillPending(turns, j, k - 1) && !Flushes(turn)
        {}
      }
    }
  }

  ghost predicate RepeatsTurn(turns: seq<Turn>, j: int, k: int) {
    0 <= j < k < |turns| && turns[j].receipt == turns[k].receipt && StillPending(turns, j, k + 1)
  }

  /** A batch raises an integrity error if and only if it repeats a receipt number that was new, with no document or
      chunk added since. */
  lemma RepeatRaisesExactly(turns: seq<Turn>)
    ensures Collides(turns, |turns|) <==> exists j, k :: RepeatsTurn(turns, j, k)
  {
    if k :| 0 <= k < |turns| && CollidesAt(turns, k) {
      PendingExact(turns, k, turns[k].receipt);
      var j :| 0 <= j < k && turns[j].receipt == turns[k].receipt && StillPending(turns, j, k);
      assert RepeatsTurn(turns, j, k);
    }
    if j, k :| RepeatsTurn(turns, j, k) {
      assert StillPending(turns, j, k);
      PendingExact(turns, k, turns[k].receipt);
      assert CollidesAt(turns, k);
    }
  }

  /** The item's document and chunk are both there already, so its turn only overwrites them. */
  ghost predicate Overwrites(t: Store, batch: Batch, item: Item) {
    && (exists d :: d in t.docs && (DocumentOf(d, item) || d.key.contentHash == Sha256(item.raw)))
    && "ev_opendart_" + batch.ticker + "_" + item.receipt in t.chunks
  }

  ghost predicate DocumentOf(d: Document, item: Item) {
    d.key.sourceName == "OpenDART" && d.key.externalId == Some(item.receipt)
  }

  /** The j-th item added the disclosure that the k-th item repeats, and every named item after it, the k-th included,
      overwrote its document and its chunk. */
  ghost predicate Repeats(s: Store, batch: Batch, items: seq<Item>, j: int, k: int) {
    && 0 <= j < k < |items| && items[j].receipt == items[k].receipt != ""
    && items[j].receipt !in PersistAll(s, batch, items[..j]).0.disclosures
    && forall m :: j < m <= k && items[m].receipt != "" ==>
         Overwrites(PersistAll(s, batch, items[..m]).0, batch, items[m])
  }

  /** The same on the batch itself: it raises if and only if one of its items repeats another in this way. */
  lemma BatchRaisesExactly(s: Store, batch: Batch, items: seq<Item>)
    ensures Collides(Turns(s, batch, items), |items|) <==> exists j, k :: Repeats(s, batch, items, j, k)
  {
    RepeatRaisesExactly(Turns(s, batch, items));
    forall j, k ensures RepeatsTurn(Turns(s, batch, items), j, k) <==> Repeats(s, batch, items, j, k) {
      if 0 <= j < k < |items| { RepeatsAt(s, batch, items, Turns(s, batch, items), j, k); }
    }
  }

  lemma RepeatsAt(s: Store, batch: Batch, items: seq<Item>, turns: seq<Turn>, j: nat, k: nat)
    requires j < k < |items| && turns == Turns(s, batch, items)
    ensures RepeatsTurn(turns, j, k) <==> Repeats(s, batch, items, j, k)
  {
    forall m | 0 <= m < |items|
      ensures Flushes(turns[m])
         <==> items[m].receipt != "" && !Overwrites(PersistAll(s, batch, items[..m]).0, batch, items[m])
      ensures turns[m].isNew <==> items[m].receipt !in PersistAll(s, batch, items[..m]).0.disclosures
    {
      TurnExactly(PersistAll(s, batch, items[..m]).0, batch, items[m]);
    }
  }

  lemma TurnExactly(t: Store, batch: Batch, item: Item)
    ensures Flushes(TurnOf(t, batch, item)) <==> item.receipt != "" && !Overwrites(t, batch, item)
    ensures TurnOf(t, batch, item).isNew <==> item.receipt !in t.disclosures
  {
    if item.receipt != "" { FoundExactly(t.docs, item); }
  }

  lemma FoundExactly(docs: Documents, item: Item)
    requires item.receipt != ""
    ensures Find(docs, KeyOf(item)).Some?
       <==> exists d :: d in docs && (DocumentOf(d, item) || d.key.contentHash == Sha256(item.raw))
  {
    forall d | d in docs && (DocumentOf(d, item) || d.key.contentHash == Sha256(item.raw))
      ensures Find(docs, KeyOf(item)).Some?
    {
      var i :| 0 <= i < |docs| && docs[i] == d;
      assert MatchesId(docs[i], KeyOf(item)) || docs[i].key.contentHash == KeyOf(item).contentHash;
    }
  }

  /** So a batch with distinct receipt numbers never does. */
  lemma DistinctNeverRaise(s: Store, batch: Batch, items: seq<Item>)
    requires DistinctReceipts(items)
    ensures !Collides(Turns(s, batch, items), |items|)
  {
    RepeatRaisesExactly(Turns(s, batch, items));
  }

  lemma {:induction false} CountsAddUp(s: Store, batch: Batch, items: seq<Item>)
    ensures var counts := PersistAll(s, batch, items).1;
            counts.inserted + counts.updated + counts.skipped == |items|
  {
    if items != [] { CountsAddUp(s, batch, items[..|items| - 1]); }
  }

  // ---- The session ----

  /** What other sessions do with an evidence id between its lookup and the insert: nothing; take it; or take it and
      give it up again before the second look. */
  datatype Race = NoRace | Taken(row: Chunk) | Vanished

  /** The upserts as they update the session's rows in place. */
  class DocumentSession {
    var docs: Documents
    var chunks: map<string, Chunk>
    var disclosures: map<string, Disclosure>
    var pending: set<string>

    ghost predicate Valid()
      reads this
    {
      Sound(docs)
    }

    ghost function Contents(): Store
      reads this
    {
      Store(docs, chunks, disclosures)
    }

    method UpsertSourceDocument(key: Key, body: Body, now: Time) returns (r: Result<nat, StoreError>)
      requires Valid()
      modifies this`docs, this`pending
      ensures Valid()
      ensures match Upsert(old(docs), key, body, now)
              case Ok((after, id)) => docs == after && r == Ok(id)
              case Err(e) => docs == old(docs) && r == Err(e)
      ensures r.Ok? ==> pending == if Find(old(docs), key).None? then {} else old(pending)
    {
      UpsertKeepsKeysUnique(docs, key, body, now);
      var existing: Option<nat> := None;
      if key.externalId.Some? && key.externalId.value != "" {
        if exists i :: 0 <= i < |docs| && MatchesId(docs[i], key) {
          var i: nat :| i < |docs| && MatchesId(docs[i], key);
          assert forall j :: 0 <= j < |docs| && MatchesId(docs[j], key) ==> MatchesId(docs[j], docs[i].key);
          existing := Some(i);
        }
      }
      if existing.None? && exists i :: 0 <= i < |docs| && docs[i].key.contentHash == key.contentHash {
        var i: nat :| i < |docs| && docs[i].key.contentHash == key.contentHash;
        existing := Some(i);
      }
      assert existing == Find(docs, key);
      if existing.Some? {
        docs := docs[existing.value := Document(docs[existing.value].key, body, now)];
        return Ok(existing.value);
      }
      if Clashes(docs, key) { return Err(IntegrityError); }
      docs := docs + [Document(key, body, now)];
      pending := {};
      return Ok(|docs| - 1);
    }

    /** `values` carries the text already cleaned, or the document's title where that is empty, and the confidence of a
        new row. A conflicting insert is rolled back to its savepoint; false is its integrity error when the row it met
        is gone on the second look. */
    method UpsertEvidenceChunk(ev: string, values: Chunk, race: Race) returns (ok: bool)
      modifies this`chunks, this`pending
      ensures ok <==> ev in old(chunks) || !race.Vanished?
      ensures !ok ==> chunks == old(chunks)
      ensures ok ==>
                var met := if ev !in old(chunks) && race.Taken? then old(chunks)[ev := race.row] else old(chunks);
                chunks == UpsertRow(met, ev, values)
      ensures ok ==>
                && chunks.Keys == old(chunks).Keys + {ev}
                && (forall other :: other in old(chunks) && other != ev ==> chunks[other] == old(chunks)[other])
                && chunks[ev] == values.(confidence := chunks[ev].confidence)
                && chunks[ev].confidence == (if ev in old(chunks) then old(chunks)[ev].confidence
                                             else if race.Taken? then race.row.confidence else values.confidence)
      ensures pending == if ev in old(chunks) then old(pending) else {}
    {
      if ev in chunks {
        chunks := chunks[ev := values.(confidence := chunks[ev].confidence)];
        return true;
      }
      pending := {};
      if race.Vanished? { return false; }
      if race.Taken? {
        chunks := chunks[ev := race.row];
        chunks := chunks[ev := values.(confidence := chunks[ev].confidence)];
      } else {
        chunks := chunks[ev := values];
      }
      return true;
    }

    /** The two upserts of an item. */
    method UpsertItem(batch: Batch, item: Item) returns (id: nat)
      requires Valid() && item.receipt != ""
      modifies this`docs, this`chunks, this`pending
      ensures Valid()
      ensures Upsert(old(docs), KeyOf(item), BodyOf(batch, item), batch.now) == Ok((docs, id))
      ensures chunks == UpsertChunk(old(chunks), batch, item, id)
      ensures pending == if TurnOf(old(Contents()), batch, item).flushes then {} else old(pending)
    {
      UpsertKeepsKeysUnique(docs, KeyOf(item), BodyOf(batch, item), batch.now);
      var r := UpsertSourceDocument(KeyOf(item), BodyOf(batch, item), batch.now);
      id := r.value;
      var ok := UpsertEvidenceChunk(EvidenceId(batch, item), ChunkOf(batch, item, id, 0.9), NoRace);
    }

    /** One item with a receipt; false once its lookup has missed a pending disclosure. */
    method PersistOne(batch: Batch, item: Item, counts: Counts) returns (ok: bool, next: Counts)
      requires Valid() && item.receipt != ""
      modifies this
      ensures Valid()
      ensures ok == !Misses(TurnOf(old(Contents()), batch, item), old(pending))
      ensures ok ==>
                && Contents() == PersistItem(old(Contents()), batch, item)
                && next == CountItem(old(Contents()), counts, item)
                && pending == NextPending(TurnOf(old(Contents()), batch, item), old(pending))
    {
      var id := UpsertItem(batch, item);
      if item.receipt in pending { return false, counts; }
      if item.receipt in disclosures {
        next := counts.(updated := counts.updated + 1);
      } else {
        pending := pending + {item.receipt};
        next := counts.(inserted := counts.inserted + 1);
      }
      disclosures := disclosures[item.receipt := DisclosureOf(batch, item, id)];
      ok := true;
    }

    /** The batch loop, in a session with nothing pending. The error is the one that the next flush raises once a lookup
        has missed a pending disclosure; the caller rolls back. */
    method PersistDisclosures(batch: Batch, items: seq<Item>) returns (r: Result<Counts, StoreError>)
      requires Valid() && pending == {}
      modifies this
      ensures Valid()
      ensures r.Err? <==> Collides(Turns(old(Contents()), batch, items), |items|)
      ensures r.Ok? ==> (Contents(), r.value) == PersistAll(old(Contents()), batch, items) && pending == {}
    {
      ghost var was := Contents();
      ghost var turns := Turns(was, batch, items);
      var counts := Counts(0, 0, 0);
      for k := 0 to |items|
        invariant Valid()
        invariant (Contents(), counts) == PersistAll(was, batch, items[..k])
        invariant pending == Pending(turns, k)
        invariant !Collides(turns, k)
      {
        Prefix(was, batch, items, k);
        ghost var turn := TurnOf(Contents(), batch, items[k]);
        assert turns[k] == turn;
        if items[k].receipt == "" {
          counts := counts.(skipped := counts.skipped + 1);
        } else {
          var ok, next := PersistOne(batch, items[k], counts);
          if !ok {
            assert CollidesAt(turns, k);
            return Err(IntegrityError);
          }
          counts := next;
        }
        NoneCollides(turns, k);
      }
      TakeAll(items);
      pending := {};
      r := Ok(counts);
    }
  }
}
