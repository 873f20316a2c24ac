/**
 * `build_faiss_index` and `search_similar_patents`: the abstracts of a result set are
 * embedded batch by batch, the vectors go into a flat index whose slot i belongs to
 * record i of the persisted mapping, and a search turns the neighbour positions the
 * index reports back into records.
 *
 * The embedding service and the nearest-neighbour search are parameters (oracles);
 * the two persisted files are the fields of `IndexStore`.
 */
module FaissIndex {
  import opened Wrappers
  import PyText

  /** An embedding vector (float32 in the source; its arithmetic is not modelled). */
  type Vector = seq<real>

  /** One result row of the BigQuery statement, as a record of the DataFrame. */
  datatype Row = Row(
    publicationNumber: string,
    title: Option<string>,
    abstractText: Option<string>,
    publicationDate: int,
    ipcCodes: string,
    assignees: string)

  /** The embedding service returns one vector per input text (its documented contract). */
  ghost predicate OnePerText(embed: seq<string> -> seq<Vector>)
  {
    forall texts :: |embed(texts)| == |texts|
  }

  /** `df['abstract'].fillna('')`: a null abstract becomes the empty text; no row is dropped. */
  function AbstractTexts(rows: seq<Row>): (texts: seq<string>)
    ensures |texts| == |rows|
    ensures forall i :: 0 <= i < |rows| ==>
      texts[i] == (if rows[i].abstractText.Some? then rows[i].abstractText.value else "")
  {
    seq(|rows|, i requires 0 <= i < |rows| => if rows[i].abstractText.Some? then rows[i].abstractText.value else "")
  }

  // ---------------------------------------------------------------------------
  // Batching

  /**
   * The batches `range(0, len(texts), size)` cuts: `texts[i:i+size]` for i = 0, size,
   * 2*size, ... while i < len(texts).
   */
  function Chunks(texts: seq<string>, size: nat): seq<seq<string>>
    requires size > 0
    decreases |texts|
  {
    if texts == [] then []
    else
      var n := PyText.Min(size, |texts|);
      [texts[..n]] + Chunks(texts[n..], size)
  }

  /** Concatenation of a list of lists, as repeated `list.extend` produces it. */
  function Flatten<T>(xss: seq<seq<T>>): seq<T>
  {
    if xss == [] then [] else xss[0] + Flatten(xss[1..])
  }

  /** The vectors of all batches, one request per batch, appended in batch order. */
  function EmbedAll(embed: seq<string> -> seq<Vector>, batches: seq<seq<string>>): seq<Vector>
  {
    if batches == [] then [] else embed(batches[0]) + EmbedAll(embed, batches[1..])
  }

  /** Every batch is non-empty and holds at most `size` texts. */
  lemma {:induction false} ChunkSizes(texts: seq<string>, size: nat, c: nat)
    requires size > 0 && c < |Chunks(texts, size)|
    ensures 0 < |Chunks(texts, size)[c]| <= size
  {
    if c > 0 {
      var n := PyText.Min(size, |texts|);
      ChunkSizes(texts[n..], size, c - 1);
    }
  }

  /** Batch c starts at offset c * size and runs to the next offset or the end of the texts. */
  lemma {:induction false} ChunkAt(texts: seq<string>, size: nat, c: nat)
    requires size > 0 && c < |Chunks(texts, size)|
    ensures c * size < |texts|
    ensures Chunks(texts, size)[c] == texts[c * size .. PyText.Min(c * size + size, |texts|)]
  {
    var n := PyText.Min(size, |texts|);
    var rest := texts[n..];
    assert Chunks(texts, size) == [texts[..n]] + Chunks(rest, size);
    if c > 0 {
      assert Chunks(texts, size)[c] == Chunks(rest, size)[c - 1];
      ChunkAt(rest, size, c - 1);
      assert n == size && |rest| == |texts| - size;
      var p := (c - 1) * size;
      assert c * size == p + size by {
        assert c * size == (c - 1) * size + size;
      }
      var m := PyText.Min(p + size, |rest|);
      assert size + m == PyText.Min(p + size + size, |texts|);
      assert rest[p .. m] == texts[p + size .. size + m];
    }
  }

  /** Concatenating the batches gives back exactly the texts: nothing skipped, nothing reordered. */
  lemma {:induction false} ChunksCover(texts: seq<string>, size: nat)
    requires size > 0
    ensures Flatten(Chunks(texts, size)) == texts
    decreases |texts|
  {
    if texts != [] {
      var n := PyText.Min(size, |texts|);
      ChunksCover(texts[n..], size);
      assert texts == texts[..n] + texts[n..];
    }
  }

  /** `q` is the quotient of `x` by `size` when `x` lies in `[q * size, q * size + size)`. */
  lemma DivisionBounds(x: int, size: int, q: int)
    requires size > 0 && q * size <= x < q * size + size
    ensures x / size == q && x % size == x - q * size
  {
    var d := x / size;
    assert (d - q) * size == d * size - q * size;
    MultipleBelowFactor(d - q, size);
  }

  lemma MultipleBelowFactor(t: int, size: int)
    requires size > 0 && -size < t * size < size
    ensures t == 0
  {
  }

  /** Moving `size` further along adds one to the quotient and keeps the remainder. */
  lemma DivisionShift(x: nat, size: int)
    requires size > 0
    ensures (x + size) / size == x / size + 1 && (x + size) % size == x % size
  {
    assert (x / size + 1) * size == (x / size) * size + size;
    DivisionBounds(x + size, size, x / size + 1);
  }

  /** The number of embedding requests is ceil(len(texts) / size). */
  lemma {:induction false} ChunkCount(texts: seq<string>, size: nat)
    requires size > 0
    ensures |Chunks(texts, size)| == (|texts| + size - 1) / size
    decreases |texts|
  {
    if texts == [] {
      DivisionBounds(size - 1, size, 0);
    } else if |texts| <= size {
      assert texts[|texts|..] == [];
      assert |Chunks(texts, size)| == 1 + |Chunks(texts[|texts|..], size)| == 1;
      DivisionBounds(|texts| + size - 1, size, 1);
    } else {
      ChunkCount(texts[size..], size);
      DivisionShift(|texts| - 1, size);
    }
  }

  /**
   * Row alignment: slot i of the embedded sequence is the vector the service returned for
   * text i, at position i % size of request i / size, and that request held text i there.
   */
  lemma {:induction false} SlotAlignment(embed: seq<string> -> seq<Vector>, texts: seq<string>, size: nat, i: nat)
    requires OnePerText(embed) && size > 0 && i < |texts|
    ensures |EmbedAll(embed, Chunks(texts, size))| == |texts|
    ensures i / size < |Chunks(texts, size)|
    ensures i % size < |Chunks(texts, size)[i / size]|
    ensures Chunks(texts, size)[i / size][i % size] == texts[i]
    ensures EmbedAll(embed, Chunks(texts, size))[i] == embed(Chunks(texts, size)[i / size])[i % size]
    decreases |texts|
  {
    var n := PyText.Min(size, |texts|);
    var cs := Chunks(texts, size);
    assert cs == [texts[..n]] + Chunks(texts[n..], size);
    assert cs[1..] == Chunks(texts[n..], size);
    assert EmbedAll(embed, cs) == embed(texts[..n]) + EmbedAll(embed, Chunks(texts[n..], size));
    assert |embed(texts[..n])| == n;
    if i < n {
      DivisionBounds(i, size, 0);
      EmbeddedLength(embed, texts[n..], size);
    } else {
      SlotAlignment(embed, texts[n..], size, i - n);
      assert n == size;
      DivisionShift(i - size, size);
    }
  }

  /**
   * Slot i of a built index belongs to record i: its vector is what the service returned
   * for record i's abstract (or for the empty text when the abstract is null).
   */
  lemma SlotMatchesRecord(embed: seq<string> -> seq<Vector>, rows: seq<Row>, size: nat, i: nat)
    requires OnePerText(embed) && size > 0 && i < |rows|
    ensures var batches := Chunks(AbstractTexts(rows), size);
      && |EmbedAll(embed, batches)| == |rows|
      && i / size < |batches| && i % size < |batches[i / size]|
      && batches[i / size][i % size] == (if rows[i].abstractText.Some? then rows[i].abstractText.value else "")
      && EmbedAll(embed, batches)[i] == embed(batches[i / size])[i % size]
  {
    SlotAlignment(embed, AbstractTexts(rows), size, i);
  }

  /** One vector per text over all batches. */
  lemma {:induction false} EmbeddedLength(embed: seq<string> -> seq<Vector>, texts: seq<string>, size: nat)
    requires OnePerText(embed) && size > 0
    ensures |EmbedAll(embed, Chunks(texts, size))| == |texts|
    decreases |texts|
  {
    if texts != [] {
      var n := PyText.Min(size, |texts|);
      var cs := Chunks(texts, size);
      assert cs[0] == texts[..n] && cs[1..] == Chunks(texts[n..], size);
      assert |embed(texts[..n])| == n;
      EmbeddedLength(embed, texts[n..], size);
    }
  }

  /**
   * The loop of `build_faiss_index`: one embedding request per batch, in order, each
   * reply appended to `embeddings`. `requests` records the batches sent.
   */
  method EmbedInBatches(embed: seq<string> -> seq<Vector>, texts: seq<string>, size: nat)
    returns (embeddings: seq<Vector>, requests: seq<seq<string>>)
    requires OnePerText(embed) && size > 0
    ensures requests == Chunks(texts, size)
    ensures embeddings == EmbedAll(embed, requests)
    ensures |embeddings| == |texts|
  {
    embeddings, requests := [], [];
    var i := 0;
    while i < |texts|
      invariant 0 <= i <= |texts|
      invariant requests + Chunks(texts[i..], size) == Chunks(texts, size)
      invariant embeddings + EmbedAll(embed, Chunks(texts[i..], size)) == EmbedAll(embed, Chunks(texts, size))
      decreases |texts| - i
    {
      var end := PyText.Min(i + size, |texts|);
      var batch := texts[i..end];
      ghost var rest := Chunks(texts[i..], size);
      assert texts[i..][..end - i] == batch && texts[i..][end - i..] == texts[end..];
      assert rest == [batch] + Chunks(texts[end..], size);
      assert rest[1..] == Chunks(texts[end..], size);
      assert EmbedAll(embed, rest) == embed(batch) + EmbedAll(embed, Chunks(texts[end..], size));
      requests := requests + [batch];
      embeddings := embeddings + embed(batch);
      i := end;
    }
    assert texts[i..] == [];
    EmbeddedLength(embed, texts, size);
  }

  // ---------------------------------------------------------------------------
  // Lookup

  datatype SearchError =
    | IndexNotFound             // faiss.read_index on a missing file
    | MappingNotFound           // open() on a missing mapping file
    | PositionOutOfRange(position: int)  // DataFrame.iloc IndexError

  /** The row `df.iloc[p]` selects among n rows: a negative position counts from the end. */
  function RowIndex(p: int, n: nat): int
  {
    if p < 0 then n + p else p
  }

  /**
   * `[df.iloc[p].to_dict() for p in I[0]]`: the records at the reported positions, in
   * the order reported; the first position outside [-n, n) raises.
   */
  function Lookup(mapping: seq<Row>, positions: seq<int>): (r: Result<seq<Row>, SearchError>)
    ensures r.Ok? <==> forall j :: 0 <= j < |positions| ==> -|mapping| <= positions[j] < |mapping|
    ensures r.Ok? ==> |r.value| == |positions|
    ensures r.Ok? ==> forall j :: 0 <= j < |positions| ==>
      0 <= RowIndex(positions[j], |mapping|) < |mapping| && r.value[j] == mapping[RowIndex(positions[j], |mapping|)]
    ensures r.Err? ==> (exists j :: 0 <= j < |positions| && r.error == PositionOutOfRange(positions[j])
                                   && !(-|mapping| <= positions[j] < |mapping|))
  {
    if positions == [] then Ok([])
    else if !(-|mapping| <= positions[0] < |mapping|) then Err(PositionOutOfRange(positions[0]))
    else
      match Lookup(mapping, positions[1..])
      case Err(e) => Err(e)
      case Ok(rest) => Ok([mapping[RowIndex(positions[0], |mapping|)]] + rest)
  }

  /**
   * Positions inside the mapping select exactly the records at those positions, so every
   * result is a record of the mapping.
   */
  lemma LookupInRange(mapping: seq<Row>, positions: seq<int>)
    requires forall j :: 0 <= j < |positions| ==> 0 <= positions[j] < |mapping|
    ensures Lookup(mapping, positions).Ok?
    ensures forall j :: 0 <= j < |positions| ==> Lookup(mapping, positions).value[j] == mapping[positions[j]]
    ensures forall j :: 0 <= j < |positions| ==> Lookup(mapping, positions).value[j] in mapping
  {
  }

  /**
   * FAISS reports -1 for a missing neighbour (k larger than the index); `iloc[-1]` then
   * selects the last record instead of failing.
   */
  lemma MissingNeighbourIsLastRecord(mapping: seq<Row>, positions: seq<int>, j: nat)
    requires mapping != [] && j < |positions| && positions[j] == -1
    requires Lookup(mapping, positions).Ok?
    ensures Lookup(mapping, positions).value[j] == mapping[|mapping| - 1]
  {
  }

  /**
   * FAISS's search contract: every position it reports is a slot of the index, or -1
   * for a neighbour it could not fill.
   */
  ghost predicate ReportsSlots(nearest: (seq<Vector>, Vector, int) -> seq<int>)
  {
    forall vs, q, k, j :: 0 <= j < |nearest(vs, q, k)| ==> -1 <= nearest(vs, q, k)[j] < |vs|
  }

  // ---------------------------------------------------------------------------
  // The persisted index and mapping

  datatype BuildError =
    | ZeroBatchSize   // range() with step 0 raises ValueError
    | NoEmbeddings    // an empty embedding array has no shape[1]: IndexError

  /**
   * The two files `build_faiss_index` writes and `search_similar_patents` reads: the
   * FAISS index (its vectors, in slot order) and the JSON mapping (the records, in order).
   * Absent files are `None`.
   */
  class IndexStore {
    var index: Option<seq<Vector>>
    var mapping: Option<seq<Row>>

    /** Once written, index and mapping have the same length. */
    ghost predicate Valid()
      reads this
    {
      index.Some? && mapping.Some? ==> |index.value| == |mapping.value|
    }

    /**
     * `PatentSearchUtils(...)` only records the two paths; the files found there are
     * whatever earlier builds left, or absent.
     */
    constructor (indexFile: Option<seq<Vector>>, mappingFile: Option<seq<Row>>)
      ensures index == indexFile && mapping == mappingFile
    {
      index, mapping := indexFile, mappingFile;
    }

    /**
     * `build_faiss_index(df)`: a full rebuild. On success both files are replaced, the
     * mapping by the rows in order and the index by one vector per row; on failure
     * (zero batch size; no vector to size the index from) nothing is written.
     */
    method Build(embed: seq<string> -> seq<Vector>, rows: seq<Row>, batchSize: int)
      returns (r: Outcome<BuildError>, requests: seq<seq<string>>)
      requires OnePerText(embed)
      modifies this
      ensures r.Pass? || old(Valid()) ==> Valid()
      ensures batchSize == 0 ==> r == Fail(ZeroBatchSize) && requests == []
      ensures batchSize < 0 ==> r == Fail(NoEmbeddings) && requests == []
      ensures batchSize > 0 ==> requests == Chunks(AbstractTexts(rows), batchSize)
      ensures batchSize > 0 && rows == [] ==> r == Fail(NoEmbeddings)
      ensures r.Pass? <==> batchSize > 0 && rows != []
      ensures r.Pass? ==> mapping == Some(rows) && index == Some(EmbedAll(embed, requests))
      ensures r.Pass? ==> |index.value| == |mapping.value| == |rows|
      ensures r.Fail? ==> index == old(index) && mapping == old(mapping)
    {
      if batchSize == 0 {
        return Fail(ZeroBatchSize), [];
      }
      if batchSize < 0 {
        return Fail(NoEmbeddings), [];
      }
      var texts := AbstractTexts(rows);
      var embeddings;
      embeddings, requests := EmbedInBatches(embed, texts, batchSize);
      if embeddings == [] {
        return Fail(NoEmbeddings), requests;
      }
      index := Some(embeddings);
      mapping := Some(rows);
      r := Pass;
    }

    /**
     * `search_similar_patents(query, k)`: read the index (or fail), read the mapping (or
     * fail), embed the query, ask the index for neighbour positions, look them up.
     */
    method Search(embed: seq<string> -> seq<Vector>, nearest: (seq<Vector>, Vector, int) -> seq<int>,
                  query: string, k: int)
      returns (r: Result<seq<Row>, SearchError>)
      requires OnePerText(embed)
      ensures index.None? ==> r == Err(IndexNotFound)
      ensures index.Some? && mapping.None? ==> r == Err(MappingNotFound)
      ensures index.Some? && mapping.Some? ==>
        r == Lookup(mapping.value, nearest(index.value, embed([query])[0], k))
      ensures Valid() && ReportsSlots(nearest) && index.Some? && mapping.Some? && mapping.value != [] ==>
        && r.Ok?
        && |r.value| == |nearest(index.value, embed([query])[0], k)|
        && forall j :: 0 <= j < |r.value| ==> r.value[j] in mapping.value
    {
      if index.None? {
        return Err(IndexNotFound);
      }
      if mapping.None? {
        return Err(MappingNotFound);
      }
      var vectors := embed([query]);
      var positions := nearest(index.value, vectors[0], k);
      r := Lookup(mapping.value, positions);
    }
  }

  /** A second build replaces the first: the files describe the latest rows only. */
  method RebuildReplaces(store: IndexStore, embed: seq<string> -> seq<Vector>,
                         first: seq<Row>, second: seq<Row>, batchSize: int)
    requires OnePerText(embed)
    requires batchSize > 0 && second != []
    modifies store
    ensures store.mapping == Some(second)
    ensures store.index == Some(EmbedAll(embed, Chunks(AbstractTexts(second), batchSize)))
  {
    var r1, _ := store.Build(embed, first, batchSize);
    var r2, _ := store.Build(embed, second, batchSize);
  }

  /**
   * A search right after a successful build always finds records: one per reported
   * position, each a row the index was built from.
   */
  method BuildThenSearch(store: IndexStore, embed: seq<string> -> seq<Vector>,
                         nearest: (seq<Vector>, Vector, int) -> seq<int>,
                         rows: seq<Row>, batchSize: int, query: string, k: int)
    returns (r: Result<seq<Row>, SearchError>)
    requires OnePerText(embed) && ReportsSlots(nearest)
    requires batchSize > 0 && rows != []
    modifies store
    ensures store.mapping == Some(rows)
    ensures store.index == Some(EmbedAll(embed, Chunks(AbstractTexts(rows), batchSize)))
    ensures r.Ok?
    ensures |r.value| == |nearest(store.index.value, embed([query])[0], k)|
    ensures forall j :: 0 <= j < |r.value| ==> r.value[j] in rows
  {
    var built, _ := store.Build(embed, rows, batchSize);
    r := store.Search(embed, nearest, query, k);
  }
}
