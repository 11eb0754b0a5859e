/**
 * Ingesting a document: embed everything first, then swap the old content for the new under a lock. A
 * cancellation or a failure can come at any checkpoint, service call or insert batch.
 */
module Ingest {
  import opened Common
  import opened Text

  datatype Kind = TextChunk | ImageChunk | OtherChunk

  datatype Chunk = Chunk(id: string, filename: string, level: int, kind: Kind, text: string, embedText: string, imagePath: string)

  type Embedding = seq<real>

  datatype Vector = Vector(chunk: Chunk, dense: Embedding)

  datatype Document = Document(storedFilename: string, contentHash: string, pipelineVersion: nat, chunkCount: nat)

  datatype Error =
    | Stopped | ParsingFailed | NoContent | NoLeaves | TooManyChunks | EmbeddingFailed | CountMismatch
    | UploadFailed | Busy | InsertFailed | ParentsFailed | DocumentFailed

  // ---------------------------------------------------------------- what the outside decides

  /**
   * Outcomes of calls into other systems, by how many calls came before: checkpoints that fire, embedding
   * batches, insert batches (`Some(k)` is a failure after `k` rows), and the two database commits.
   */
  datatype Outside = Outside(
    stops: nat -> bool,
    embedTexts: (nat, seq<string>) -> Option<seq<Embedding>>,
    embedImages: seq<string> -> Option<seq<Embedding>>,
    insertFails: nat -> Option<nat>,
    lockFree: nat -> bool,
    uploadFails: bool,
    parentsFail: bool,
    documentFails: bool)

  /** Cooperative cancellation and timeout. */
  class Guard {
    const stops: nat -> bool
    var calls: nat

    constructor (stops: nat -> bool)
      ensures this.stops == stops && calls == 0
    {
      this.stops, calls := stops, 0;
    }

    method Checkpoint() returns (stop: bool)
      modifies this
      ensures calls == old(calls) + 1 && stop == stops(old(calls))
    {
      stop := stops(calls);
      calls := calls + 1;
    }
  }

  // ---------------------------------------------------------------- embedding

  function OfKind(chunks: seq<Chunk>, kind: Kind): (r: seq<Chunk>)
    ensures forall c :: c in r <==> c in chunks && c.kind == kind
  {
    if chunks == [] then []
    else OfKind(chunks[..|chunks| - 1], kind) + if chunks[|chunks| - 1].kind == kind then [chunks[|chunks| - 1]] else []
  }

  function EmbedInput(c: Chunk): string {
    if c.embedText != "" then c.embedText else c.text
  }

  function Inputs(chunks: seq<Chunk>): (r: seq<string>)
    ensures |r| == |chunks| && forall i :: 0 <= i < |r| ==> r[i] == EmbedInput(chunks[i])
  {
    seq(|chunks|, i requires 0 <= i < |chunks| => EmbedInput(chunks[i]))
  }

  function Paths(chunks: seq<Chunk>): (r: seq<string>)
    ensures |r| == |chunks| && forall i :: 0 <= i < |r| ==> r[i] == chunks[i].imagePath
  {
    seq(|chunks|, i requires 0 <= i < |chunks| => chunks[i].imagePath)
  }

  /** A batch that comes back with as many vectors as were asked for has them in the order asked. */
  ghost predicate InOrder(embedTexts: (nat, seq<string>) -> Option<seq<Embedding>>, meaning: string -> Embedding) {
    forall n: nat, texts :: embedTexts(n, texts).Some? && |embedTexts(n, texts).value| == |texts| ==>
      forall i :: 0 <= i < |texts| ==> embedTexts(n, texts).value[i] == meaning(texts[i])
  }

  ghost predicate Aligned(chunks: seq<Chunk>, dense: seq<Embedding>, meaning: string -> Embedding) {
    |dense| == |chunks| && forall i :: 0 <= i < |chunks| ==> dense[i] == meaning(EmbedInput(chunks[i]))
  }

  /** Text chunks in batches; the count of every batch is checked before its vectors are kept. */
  method EmbedTexts(chunks: seq<Chunk>, bs: nat, o: Outside, guard: Guard, ghost meaning: string -> Embedding)
    returns (r: Result<seq<Embedding>, Error>)
    requires bs >= 1
    modifies guard
    ensures r.Ok? ==> |r.value| == |chunks|
    ensures r.Ok? && InOrder(o.embedTexts, meaning) ==> Aligned(chunks, r.value, meaning)
    ensures r.Err? ==> r.error in {Stopped, EmbeddingFailed, CountMismatch}
  {
    var dense: seq<Embedding> := [];
    var i, n := 0, 0;
    while i < |chunks|
      invariant i <= |chunks| && |dense| == i
      invariant InOrder(o.embedTexts, meaning) ==> Aligned(chunks[..i], dense, meaning)
    {
      var stop := guard.Checkpoint();
      if stop { return Err(Stopped); }
      var end := if i + bs < |chunks| then i + bs else |chunks|;
      var texts := Inputs(chunks[i..end]);
      var batch := o.embedTexts(n, texts);
      if batch.None? { return Err(EmbeddingFailed); }
      if |batch.value| != end - i { return Err(CountMismatch); }
      AlignedExtends(chunks, i, end, dense, batch.value, meaning);
      dense := dense + batch.value;
      i, n := end, n + 1;
      stop := guard.Checkpoint();
      if stop { return Err(Stopped); }
    }
    assert chunks[..|chunks|] == chunks;
    return Ok(dense);
  }

  lemma AlignedExtends(chunks: seq<Chunk>, i: nat, end: nat, dense: seq<Embedding>, more: seq<Embedding>, meaning: string -> Embedding)
    requires i <= end <= |chunks|
    ensures Aligned(chunks[..i], dense, meaning) && Aligned(chunks[i..end], more, meaning) ==> Aligned(chunks[..end], dense + more, meaning)
  {
  }

  // ---------------------------------------------------------------- the stores

  function Paired(chunks: seq<Chunk>, dense: seq<Embedding>): (r: seq<Vector>)
    requires |chunks| == |dense|
    ensures |r| == |chunks| && forall i :: 0 <= i < |r| ==> r[i] == Vector(chunks[i], dense[i])
  {
    seq(|chunks|, i requires 0 <= i < |chunks| => Vector(chunks[i], dense[i]))
  }

  lemma PairedSlice(chunks: seq<Chunk>, dense: seq<Embedding>, i: nat, j: nat)
    requires |chunks| == |dense| && i <= j <= |chunks|
    ensures Paired(chunks[i..j], dense[i..j]) == Paired(chunks, dense)[i..j]
  {
  }

  function OtherVectors(vectors: seq<Vector>, filename: string): (r: seq<Vector>)
    ensures forall i :: 0 <= i < |r| ==> r[i].chunk.filename != filename
  {
    if vectors == [] then []
    else
      var last := vectors[|vectors| - 1];
      OtherVectors(vectors[..|vectors| - 1], filename) + if last.chunk.filename != filename then [last] else []
  }

  lemma {:induction false} OtherVectorsMembers(vectors: seq<Vector>, filename: string)
    ensures forall v :: v in OtherVectors(vectors, filename) <==> v in vectors && v.chunk.filename != filename
  {
    if vectors != [] {
      OtherVectorsMembers(vectors[..|vectors| - 1], filename);
      assert vectors == vectors[..|vectors| - 1] + [vectors[|vectors| - 1]];
    }
  }

  function OtherParents(parents: map<string, Chunk>, filename: string): map<string, Chunk> {
    map id | id in parents && parents[id].filename != filename :: parents[id]
  }

  /** Blank ids are dropped; of several chunks with one id the last wins. */
  function Normalized(chunks: seq<Chunk>): (r: map<string, Chunk>)
    ensures forall id :: id in r ==> r[id] in chunks
  {
    if chunks == [] then map[]
    else
      var last := chunks[|chunks| - 1];
      var before := Normalized(chunks[..|chunks| - 1]);
      if Strip(last.id) == "" then before else before[Strip(last.id) := last]
  }

  class Library {
    var vectors: seq<Vector>
    var parents: map<string, Chunk>
    var documents: map<string, Document>

    constructor ()
      ensures vectors == [] && parents == map[] && documents == map[]
    {
      vectors, parents, documents := [], map[], map[];
    }

    /** Store deletes are assumed to succeed. No row of the file is left, and no other row is lost, changed or moved. */
    method DeleteDocument(filename: string)
      modifies this
      ensures filename !in documents
      ensures forall v :: v in vectors <==> v in old(vectors) && v.chunk.filename != filename
      ensures forall id :: id in parents <==> id in old(parents) && old(parents)[id].filename != filename
      ensures forall id :: id in parents ==> parents[id] == old(parents)[id]
      ensures forall f :: f != filename && f in old(documents) ==> f in documents && documents[f] == old(documents)[f]
      ensures vectors == OtherVectors(old(vectors), filename)
      ensures parents == OtherParents(old(parents), filename)
      ensures documents == old(documents) - {filename}
    {
      OtherVectorsMembers(vectors, filename);
      vectors := OtherVectors(vectors, filename);
      parents := OtherParents(parents, filename);
      documents := documents - {filename};
    }

    method UpsertParents(chunks: seq<Chunk>, fails: bool) returns (ok: bool)
      modifies this`parents
      ensures ok == !fails
      ensures parents == if ok then old(parents) + Normalized(chunks) else old(parents)
    {
      if fails {
        return false;
      }
      var normalized: map<string, Chunk> := map[];
      for i := 0 to |chunks|
        invariant normalized == Normalized(chunks[..i])
        invariant parents == old(parents)
      {
        TakeOneMore(chunks, i);
        if Strip(chunks[i].id) != "" {
          normalized := normalized[Strip(chunks[i].id) := chunks[i]];
        }
      }
      assert chunks[..|chunks|] == chunks;
      parents := parents + normalized;
      return true;
    }

    /** Inserts in batches with a checkpoint after each; a batch may fail after some of its rows. */
    method InsertBatches(chunks: seq<Chunk>, dense: seq<Embedding>, bs: nat, first: nat, o: Outside, guard: Guard)
      returns (error: Option<Error>, next: nat)
      requires bs >= 1 && |dense| == |chunks|
      modifies this`vectors, guard
      ensures exists k: nat :: k <= |chunks| && vectors == old(vectors) + Paired(chunks, dense)[..k]
      ensures error.None? ==> vectors == old(vectors) + Paired(chunks, dense)
    {
      ghost var all := Paired(chunks, dense);
      next := first;
      var i := 0;
      assert all[..0] == [];
      while i < |chunks|
        invariant i <= |chunks|
        invariant vectors == old(vectors) + all[..i]
      {
        var end := if i + bs < |chunks| then i + bs else |chunks|;
        var rows := Paired(chunks[i..end], dense[i..end]);
        PairedSlice(chunks, dense, i, end);
        var failed := o.insertFails(next);
        next := next + 1;
        if failed.Some? {
          var k := if failed.value < |rows| then failed.value else |rows|;
          vectors := vectors + rows[..k];
          TakeFurther(old(vectors), all, i, end, k);
          return Some(InsertFailed), next;
        }
        vectors := vectors + rows;
        assert rows[..|rows|] == rows;
        TakeFurther(old(vectors), all, i, end, |rows|);
        i := end;
        var stop := guard.Checkpoint();
        if stop { return Some(Stopped), next; }
      }
      assert all[..|chunks|] == all;
      return None, next;
    }

    /** Text chunks first, then image chunks, each with its own list of vectors. */
    method WriteDocuments(leaves: seq<Chunk>, texts: seq<Embedding>, images: seq<Embedding>, bs: nat, o: Outside, guard: Guard)
      returns (error: Option<Error>)
      requires bs >= 1
      modifies this`vectors, guard
      ensures ComesFrom(old(vectors), vectors, leaves)
      ensures error.None? ==> CountsMatch(leaves, texts, images) && vectors == old(vectors) + NewVectors(leaves, texts, images)
    {
      var textChunks, imageChunks := OfKind(leaves, TextChunk), OfKind(leaves, ImageChunk);
      var next := 0;
      ghost var before := vectors;
      SameComesFrom(before, leaves);
      if textChunks != [] {
        if |texts| != |textChunks| {
          return Some(CountMismatch);
        }
        error, next := InsertBatches(textChunks, texts, bs, next, o, guard);
        InsertedComesFrom(before, before, vectors, leaves, TextChunk, texts);
        if error.Some? {
          return;
        }
      }
      ghost var middle := vectors;
      if imageChunks != [] {
        if |images| != |imageChunks| {
          return Some(CountMismatch);
        }
        error, next := InsertBatches(imageChunks, images, bs, next, o, guard);
        InsertedComesFrom(before, middle, vectors, leaves, ImageChunk, images);
        if error.Some? {
          return;
        }
      }
      AllWritten(before, middle, vectors, leaves, texts, images);
      return None;
    }
  }

  // ---------------------------------------------------------------- what was written

  predicate CountsMatch(leaves: seq<Chunk>, texts: seq<Embedding>, images: seq<Embedding>) {
    && (OfKind(leaves, TextChunk) != [] ==> |texts| == |OfKind(leaves, TextChunk)|)
    && (OfKind(leaves, ImageChunk) != [] ==> |images| == |OfKind(leaves, ImageChunk)|)
  }

  /** One row per text or image chunk, in order, each with the vector at its own position. */
  function NewVectors(leaves: seq<Chunk>, texts: seq<Embedding>, images: seq<Embedding>): seq<Vector>
    requires CountsMatch(leaves, texts, images)
  {
    var t, i := OfKind(leaves, TextChunk), OfKind(leaves, ImageChunk);
    (if t == [] then [] else Paired(t, texts)) + (if i == [] then [] else Paired(i, images))
  }

  /** Only rows of `leaves` were added. */
  ghost predicate ComesFrom(before: seq<Vector>, after: seq<Vector>, leaves: seq<Chunk>) {
    before <= after && forall i :: |before| <= i < |after| ==> after[i].chunk in leaves
  }

  lemma SameComesFrom(before: seq<Vector>, leaves: seq<Chunk>)
    ensures ComesFrom(before, before, leaves)
  {
  }

  lemma InsertedComesFrom(before: seq<Vector>, middle: seq<Vector>, after: seq<Vector>, leaves: seq<Chunk>, kind: Kind, dense: seq<Embedding>)
    requires ComesFrom(before, middle, leaves) && |dense| == |OfKind(leaves, kind)|
    requires exists k: nat :: k <= |dense| && after == middle + Paired(OfKind(leaves, kind), dense)[..k]
    ensures ComesFrom(before, after, leaves)
  {
    var chunks := OfKind(leaves, kind);
    var k: nat :| k <= |dense| && after == middle + Paired(chunks, dense)[..k];
    forall i | |middle| <= i < |after| ensures after[i].chunk in leaves {
      assert after[i] == Paired(chunks, dense)[i - |middle|];
      assert chunks[i - |middle|] in chunks;
    }
  }

  lemma AllWritten(before: seq<Vector>, middle: seq<Vector>, after: seq<Vector>, leaves: seq<Chunk>,
                   texts: seq<Embedding>, images: seq<Embedding>)
    requires CountsMatch(leaves, texts, images)
    requires var t := OfKind(leaves, TextChunk); middle == before + if t == [] then [] else Paired(t, texts)
    requires var i := OfKind(leaves, ImageChunk); after == middle + if i == [] then [] else Paired(i, images)
    ensures after == before + NewVectors(leaves, texts, images)
  {
    var t, i := OfKind(leaves, TextChunk), OfKind(leaves, ImageChunk);
    ConcatAssoc(before, if t == [] then [] else Paired(t, texts), if i == [] then [] else Paired(i, images));
  }

  // ---------------------------------------------------------------- swapping

  lemma {:induction false} OthersOfSum(a: seq<Vector>, b: seq<Vector>, filename: string)
    requires forall i :: 0 <= i < |b| ==> b[i].chunk.filename == filename
    ensures OtherVectors(a + b, filename) == OtherVectors(a, filename)
    decreases |b|
  {
    if b == [] {
      assert a + b == a;
    } else {
      assert (a + b)[..|a + b| - 1] == a + b[..|b| - 1];
      OthersOfSum(a, b[..|b| - 1], filename);
    }
  }

  lemma {:induction false} NothingToRemove(a: seq<Vector>, filename: string)
    requires forall i :: 0 <= i < |a| ==> a[i].chunk.filename != filename
    ensures OtherVectors(a, filename) == a
  {
    if a != [] { NothingToRemove(a[..|a| - 1], filename); }
  }

  lemma OthersTwice(a: seq<Vector>, filename: string)
    ensures OtherVectors(OtherVectors(a, filename), filename) == OtherVectors(a, filename)
  {
    NothingToRemove(OtherVectors(a, filename), filename);
  }

  /** Deleting the file once more removes whatever part of the new content had been written. */
  lemma RowsCleaned(before: seq<Vector>, after: seq<Vector>, leaves: seq<Chunk>, filename: string)
    requires ComesFrom(OtherVectors(before, filename), after, leaves)
    requires forall c :: c in leaves ==> c.filename == filename
    ensures OtherVectors(after, filename) == OtherVectors(before, filename)
  {
    var kept := OtherVectors(before, filename);
    var added := after[|kept|..];
    assert after == kept + added;
    forall i | 0 <= i < |added| ensures added[i].chunk.filename == filename {
      assert added[i] == after[|kept| + i];
    }
    OthersOfSum(kept, added, filename);
    OthersTwice(before, filename);
  }

  /** No other file owns a parent chunk under an id of this upload. */
  ghost predicate IdsAreOwn(parents: map<string, Chunk>, chunks: seq<Chunk>, filename: string) {
    forall id :: id in Normalized(chunks) && id in parents ==> parents[id].filename == filename
  }

  lemma ParentsCleaned(before: map<string, Chunk>, chunks: seq<Chunk>, filename: string)
    requires forall c :: c in chunks ==> c.filename == filename
    ensures OtherParents(OtherParents(before, filename), filename) == OtherParents(before, filename)
    ensures IdsAreOwn(before, chunks, filename) ==>
      OtherParents(OtherParents(before, filename) + Normalized(chunks), filename) == OtherParents(before, filename)
  {
  }

  /** The stores hold exactly the new content of the file, and everything of other files as before. */
  ghost predicate HoldsNew(vectors: seq<Vector>, parents: map<string, Chunk>, documents: map<string, Document>,
                           v0: seq<Vector>, p0: map<string, Chunk>, d0: map<string, Document>, filename: string,
                           parentChunks: seq<Chunk>, added: seq<Vector>, doc: Document) {
    && vectors == OtherVectors(v0, filename) + added
    && parents == OtherParents(p0, filename) + Normalized(parentChunks)
    && documents == (d0 - {filename})[filename := doc]
  }

  /** Nothing of the file is left, and everything of other files is as before. */
  ghost predicate HoldsNothing(vectors: seq<Vector>, parents: map<string, Chunk>, documents: map<string, Document>,
                               v0: seq<Vector>, p0: map<string, Chunk>, d0: map<string, Document>, filename: string,
                               parentChunks: seq<Chunk>) {
    && vectors == OtherVectors(v0, filename)
    && (IdsAreOwn(p0, parentChunks, filename) ==> parents == OtherParents(p0, filename))
    && (forall id :: id in parents ==> parents[id].filename != filename)
    && documents == d0 - {filename}
  }

  /** The lock was taken by somebody else at each of the first `n` looks, and no check before that fired. */
  ghost predicate WaitedFor(o: Outside, stops: nat -> bool, first: nat, n: nat) {
    forall m :: 0 <= m < n ==> !o.lockFree(m) && !stops(first + m)
  }

  lemma WaitedOnceMore(o: Outside, stops: nat -> bool, first: nat, n: nat)
    requires WaitedFor(o, stops, first, n) && !o.lockFree(n) && !stops(first + n)
    ensures WaitedFor(o, stops, first, n + 1)
  {
    forall m | 0 <= m < n + 1 ensures !o.lockFree(m) && !stops(first + m) {
      if m < n {} else { assert m == n; }
    }
  }

  ghost predicate StoppedAt(o: Outside, stops: nat -> bool, first: nat, n: nat) {
    WaitedFor(o, stops, first, n) && !o.lockFree(n) && stops(first + n)
  }

  /** Looks at the lock up to `patience + 1` times, with a check after each failure. */
  method TakeLock(patience: nat, o: Outside, guard: Guard) returns (error: Option<Error>)
    modifies guard
    ensures error in {None, Some(Stopped), Some(Busy)}
    ensures error == None ==> exists n: nat :: n <= patience && WaitedFor(o, guard.stops, old(guard.calls), n) && o.lockFree(n)
    ensures error == Some(Stopped) ==>
      exists n: nat :: n <= patience && StoppedAt(o, guard.stops, old(guard.calls), n)
    ensures error == Some(Busy) ==> WaitedFor(o, guard.stops, old(guard.calls), patience + 1)
  {
    var n := 0;
    while !o.lockFree(n)
      invariant n <= patience && guard.calls == old(guard.calls) + n
      invariant WaitedFor(o, guard.stops, old(guard.calls), n)
      decreases patience - n
    {
      var stop := guard.Checkpoint();
      if stop {
        assert StoppedAt(o, guard.stops, old(guard.calls), n);
        return Some(Stopped);
      }
      WaitedOnceMore(o, guard.stops, old(guard.calls), n);
      if n >= patience {
        return Some(Busy);
      }
      n := n + 1;
    }
    return None;
  }

  /** Delete the old content and write the new, as far as it goes. */
  method WriteNew(lib: Library, filename: string, parentChunks: seq<Chunk>, leaves: seq<Chunk>, doc: Document,
                  texts: seq<Embedding>, images: seq<Embedding>, bs: nat, o: Outside, guard: Guard)
    returns (error: Option<Error>)
    requires bs >= 1
    modifies lib, guard
    ensures error.None? ==>
      && CountsMatch(leaves, texts, images)
      && HoldsNew(lib.vectors, lib.parents, lib.documents, old(lib.vectors), old(lib.parents), old(lib.documents),
                  filename, parentChunks, NewVectors(leaves, texts, images), doc)
    ensures error.Some? ==>
      && ComesFrom(OtherVectors(old(lib.vectors), filename), lib.vectors, leaves)
      && (lib.parents == OtherParents(old(lib.parents), filename) ||
          lib.parents == OtherParents(old(lib.parents), filename) + Normalized(parentChunks))
      && lib.documents == old(lib.documents) - {filename}
  {
    lib.DeleteDocument(filename);
    SameComesFrom(lib.vectors, leaves);
    var ok := lib.UpsertParents(parentChunks, o.parentsFail);
    if !ok {
      return Some(ParentsFailed);
    }
    error := lib.WriteDocuments(leaves, texts, images, bs, o, guard);
    if error.Some? {
      return;
    }
    if o.documentFails {
      return Some(DocumentFailed);
    }
    lib.documents := lib.documents[filename := doc];
  }

  /** Delete the old content, write the new; on any failure delete again. */
  method SwapDocument(lib: Library, filename: string, parentChunks: seq<Chunk>, leaves: seq<Chunk>, doc: Document,
                      texts: seq<Embedding>, images: seq<Embedding>, bs: nat, o: Outside, guard: Guard)
    returns (error: Option<Error>)
    requires bs >= 1
    requires forall c :: c in leaves || c in parentChunks ==> c.filename == filename
    modifies lib, guard
    ensures error.None? ==>
      && CountsMatch(leaves, texts, images)
      && HoldsNew(lib.vectors, lib.parents, lib.documents, old(lib.vectors), old(lib.parents), old(lib.documents),
                  filename, parentChunks, NewVectors(leaves, texts, images), doc)
    ensures error.Some? ==>
      HoldsNothing(lib.vectors, lib.parents, lib.documents, old(lib.vectors), old(lib.parents), old(lib.documents), filename, parentChunks)
  {
    error := WriteNew(lib, filename, parentChunks, leaves, doc, texts, images, bs, o, guard);
    if error.Some? {
      RowsCleaned(old(lib.vectors), lib.vectors, leaves, filename);
      ParentsCleaned(old(lib.parents), parentChunks, filename);
      lib.DeleteDocument(filename);
    }
  }

  // ---------------------------------------------------------------- the whole pipeline

  datatype Outcome = Unchanged | Replaced

  /** A request to ingest one file, and what parsing it gives. */
  datatype Upload = Upload(
    filename: string, storedFilename: string, contentHash: string, pipelineVersion: nat,
    parsed: Option<seq<Chunk>>, batchSize: int, maxChunks: int, patience: nat)

  function WithLevel(chunks: seq<Chunk>, lo: int, hi: int): (r: seq<Chunk>)
    ensures forall c :: c in r <==> c in chunks && lo <= c.level <= hi
  {
    if chunks == [] then []
    else
      var last := chunks[|chunks| - 1];
      WithLevel(chunks[..|chunks| - 1], lo, hi) + if lo <= last.level <= hi then [last] else []
  }

  function Parents(u: Upload): seq<Chunk> {
    if u.parsed.Some? then WithLevel(u.parsed.value, 1, 2) else []
  }

  function Leaves(u: Upload): seq<Chunk> {
    if u.parsed.Some? then WithLevel(u.parsed.value, 3, 4) else []
  }

  function DocumentOf(u: Upload): Document {
    Document(u.storedFilename, u.contentHash, u.pipelineVersion, |Leaves(u)|)
  }

  predicate IsUnchanged(documents: map<string, Document>, u: Upload) {
    && u.filename in documents
    && documents[u.filename].contentHash != ""
    && documents[u.filename].contentHash == u.contentHash
    && documents[u.filename].pipelineVersion == u.pipelineVersion
  }

  /** Every text row carries the vector of its own text and every image row that of its own image. */
  ghost predicate WellPaired(rows: seq<Vector>, textMeaning: string -> Embedding, imageMeaning: string -> Embedding) {
    forall i :: 0 <= i < |rows| ==>
      rows[i].dense == if rows[i].chunk.kind == ImageChunk then imageMeaning(rows[i].chunk.imagePath)
                       else textMeaning(EmbedInput(rows[i].chunk))
  }

  ghost predicate ImagesInOrder(embedImages: seq<string> -> Option<seq<Embedding>>, meaning: string -> Embedding) {
    forall paths :: embedImages(paths).Some? && |embedImages(paths).value| == |paths| ==>
      forall i :: 0 <= i < |paths| ==> embedImages(paths).value[i] == meaning(paths[i])
  }

  /**
   * One vector per text chunk, in order if the service keeps order; and the image service's own answer for the
   * image chunks, whose number is looked at only when writing.
   */
  ghost predicate Embedded(leaves: seq<Chunk>, o: Outside, dense: (seq<Embedding>, seq<Embedding>), meaning: string -> Embedding) {
    var texts, images := OfKind(leaves, TextChunk), OfKind(leaves, ImageChunk);
    && |dense.0| == |texts|
    && (InOrder(o.embedTexts, meaning) ==> Aligned(texts, dense.0, meaning))
    && (if images == [] then dense.1 == [] else o.embedImages(Paths(images)) == Some(dense.1))
  }

  /** All embedding calls, before anything is touched. */
  method EmbedDocuments(leaves: seq<Chunk>, bs: nat, o: Outside, guard: Guard, ghost meaning: string -> Embedding)
    returns (r: Result<(seq<Embedding>, seq<Embedding>), Error>)
    requires bs >= 1
    modifies guard
    ensures r.Ok? ==> Embedded(leaves, o, r.value, meaning)
    ensures r.Err? ==> r.error in {Stopped, EmbeddingFailed, CountMismatch}
  {
    var textChunks, imageChunks := OfKind(leaves, TextChunk), OfKind(leaves, ImageChunk);
    var texts := EmbedTexts(textChunks, bs, o, guard, meaning);
    if texts.Err? {
      return Err(texts.error);
    }
    if imageChunks == [] {
      return Ok((texts.value, []));
    }
    var stop := guard.Checkpoint();
    if stop {
      return Err(Stopped);
    }
    var dense := o.embedImages(Paths(imageChunks));
    if dense.None? {
      return Err(EmbeddingFailed);
    }
    stop := guard.Checkpoint();
    if stop {
      return Err(Stopped);
    }
    return Ok((texts.value, dense.value));
  }

  /** What was embedded can be written exactly if the image service answered with one vector per image. */
  lemma EmbeddedPairs(leaves: seq<Chunk>, o: Outside, dense: (seq<Embedding>, seq<Embedding>),
                      textMeaning: string -> Embedding, imageMeaning: string -> Embedding)
    requires Embedded(leaves, o, dense, textMeaning)
    ensures CountsMatch(leaves, dense.0, dense.1) <==> |dense.1| == |OfKind(leaves, ImageChunk)|
    ensures CountsMatch(leaves, dense.0, dense.1) && InOrder(o.embedTexts, textMeaning) && ImagesInOrder(o.embedImages, imageMeaning) ==>
      WellPaired(NewVectors(leaves, dense.0, dense.1), textMeaning, imageMeaning)
  {
    if CountsMatch(leaves, dense.0, dense.1) && InOrder(o.embedTexts, textMeaning) && ImagesInOrder(o.embedImages, imageMeaning) {
      NewVectorsPaired(leaves, dense.0, dense.1, textMeaning, imageMeaning);
    }
  }

  lemma NewVectorsPaired(leaves: seq<Chunk>, texts: seq<Embedding>, images: seq<Embedding>,
                         textMeaning: string -> Embedding, imageMeaning: string -> Embedding)
    requires CountsMatch(leaves, texts, images)
    requires Aligned(OfKind(leaves, TextChunk), texts, textMeaning)
    requires var cs := OfKind(leaves, ImageChunk);
      cs != [] ==> forall i :: 0 <= i < |cs| ==> images[i] == imageMeaning(cs[i].imagePath)
    ensures WellPaired(NewVectors(leaves, texts, images), textMeaning, imageMeaning)
  {
    var t, c := OfKind(leaves, TextChunk), OfKind(leaves, ImageChunk);
    forall i | 0 <= i < |t| ensures t[i].kind == TextChunk { assert t[i] in t; }
    forall i | 0 <= i < |c| ensures c[i].kind == ImageChunk { assert c[i] in c; }
  }

  /** Everything up to the swap: checks, parsing and all embedding calls. */
  method Prepare(u: Upload, o: Outside, guard: Guard, ghost meaning: string -> Embedding)
    returns (r: Result<(seq<Embedding>, seq<Embedding>), Error>)
    modifies guard
    ensures r.Ok? ==> Embedded(Leaves(u), o, r.value, meaning) && !o.uploadFails
    ensures r.Ok? ==> Leaves(u) != [] && |Leaves(u)| <= if u.maxChunks < 1 then 1 else u.maxChunks
    ensures r.Err? ==> r.error !in {Busy, InsertFailed, ParentsFailed, DocumentFailed}
  {
    if u.parsed.None? {
      return Err(ParsingFailed);
    }
    var stop := guard.Checkpoint();
    if stop {
      return Err(Stopped);
    }
    if u.parsed.value == [] {
      return Err(NoContent);
    }
    var leaves := Leaves(u);
    if leaves == [] {
      return Err(NoLeaves);
    }
    if |leaves| > if u.maxChunks < 1 then 1 else u.maxChunks {
      return Err(TooManyChunks);
    }
    stop := guard.Checkpoint();
    if stop {
      return Err(Stopped);
    }
    r := EmbedDocuments(leaves, if u.batchSize < 1 then 1 else u.batchSize, o, guard, meaning);
    if r.Err? {
      return;
    }
    stop := guard.Checkpoint();
    if stop {
      return Err(Stopped);
    }
    if o.uploadFails {
      return Err(UploadFailed);
    }
  }

  method RunIngestPipeline(lib: Library, u: Upload, o: Outside, guard: Guard,
                           ghost textMeaning: string -> Embedding, ghost imageMeaning: string -> Embedding)
    returns (r: Result<Outcome, Error>, ghost swapped: bool, ghost added: seq<Vector>)
    requires u.parsed.Some? ==> forall c :: c in u.parsed.value ==> c.filename == u.filename
    modifies lib, guard
    ensures !swapped ==> lib.vectors == old(lib.vectors) && lib.parents == old(lib.parents) && lib.documents == old(lib.documents)
    ensures r == Ok(Unchanged) ==> !swapped
    ensures r == Ok(Replaced) ==>
      && swapped
      && HoldsNew(lib.vectors, lib.parents, lib.documents, old(lib.vectors), old(lib.parents), old(lib.documents),
                  u.filename, Parents(u), added, DocumentOf(u))
      && (InOrder(o.embedTexts, textMeaning) && ImagesInOrder(o.embedImages, imageMeaning) ==> WellPaired(added, textMeaning, imageMeaning))
      && Chunks(added) == OfKind(Leaves(u), TextChunk) + OfKind(Leaves(u), ImageChunk)
    ensures r.Err? && swapped ==>
      HoldsNothing(lib.vectors, lib.parents, lib.documents, old(lib.vectors), old(lib.parents), old(lib.documents), u.filename, Parents(u))
  {
    swapped, added := false, [];
    var stop := guard.Checkpoint();
    if stop {
      return Err(Stopped), swapped, added;
    }
    if IsUnchanged(lib.documents, u) {
      return Ok(Unchanged), swapped, added;
    }
    var dense := Prepare(u, o, guard, textMeaning);
    if dense.Err? {
      return Err(dense.error), swapped, added;
    }
    var busy := TakeLock(u.patience, o, guard);
    if busy.Some? {
      return Err(busy.value), swapped, added;
    }
    swapped := true;
    var bs := if u.batchSize < 1 then 1 else u.batchSize;
    var failed := SwapDocument(lib, u.filename, Parents(u), Leaves(u), DocumentOf(u), dense.value.0, dense.value.1, bs, o, guard);
    if failed.Some? {
      return Err(failed.value), swapped, added;
    }
    added := NewVectors(Leaves(u), dense.value.0, dense.value.1);
    EmbeddedPairs(Leaves(u), o, dense.value, textMeaning, imageMeaning);
    NewVectorsChunks(Leaves(u), dense.value.0, dense.value.1);
    return Ok(Replaced), swapped, added;
  }

  function Chunks(rows: seq<Vector>): (r: seq<Chunk>)
    ensures |r| == |rows| && forall i :: 0 <= i < |r| ==> r[i] == rows[i].chunk
  {
    seq(|rows|, i requires 0 <= i < |rows| => rows[i].chunk)
  }

  lemma ChunksOfPaired(chunks: seq<Chunk>, dense: seq<Embedding>)
    requires |chunks| == |dense|
    ensures Chunks(Paired(chunks, dense)) == chunks
  {
  }

  lemma ChunksOfSum(a: seq<Vector>, b: seq<Vector>)
    ensures Chunks(a + b) == Chunks(a) + Chunks(b)
  {
  }

  lemma NewVectorsChunks(leaves: seq<Chunk>, texts: seq<Embedding>, images: seq<Embedding>)
    requires CountsMatch(leaves, texts, images)
    ensures Chunks(NewVectors(leaves, texts, images)) == OfKind(leaves, TextChunk) + OfKind(leaves, ImageChunk)
  {
    var t, i := OfKind(leaves, TextChunk), OfKind(leaves, ImageChunk);
    if t != [] { ChunksOfPaired(t, texts); }
    if i != [] { ChunksOfPaired(i, images); }
    ChunksOfSum(if t == [] then [] else Paired(t, texts), if i == [] then [] else Paired(i, images));
  }
}
