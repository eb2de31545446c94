/** The body of a transfer, as the chunks its Reads return. */
module ByteStream {
  type Byte = bv8

  datatype ReadErr = NoErr | Eof | Fault

  /** What one Read gives its caller: some bytes, and possibly the end or an error. */
  datatype Chunk = Chunk(data: seq<Byte>, err: ReadErr)

  /** The bytes up to and including the chunk that ends the body. */
  function Stream(chunks: seq<Chunk>): seq<Byte> {
    if |chunks| == 0 then []
    else if chunks[0].err != NoErr then chunks[0].data
    else chunks[0].data + Stream(chunks[1..])
  }

  /** The body ends with EOF rather than with an error. */
  predicate EndsWell(chunks: seq<Chunk>) {
    |chunks| > 0 && (chunks[0].err == Eof || (chunks[0].err == NoErr && EndsWell(chunks[1..])))
  }

  predicate Open(chunks: seq<Chunk>) {
    forall i | 0 <= i < |chunks| :: chunks[i].err == NoErr
  }

  /** One more chunk counts only while no earlier one ended the body. */
  lemma {:induction false} StreamAppend(chunks: seq<Chunk>, c: Chunk)
    ensures Stream(chunks + [c]) == Stream(chunks) + (if Open(chunks) then c.data else [])
    ensures EndsWell(chunks + [c]) <==> if Open(chunks) then c.err == Eof else EndsWell(chunks)
    ensures Open(chunks) ==> !EndsWell(chunks)
    decreases |chunks|
  {
    if |chunks| == 0 {
      assert chunks + [c] == [c];
      assert Stream([c]) == c.data;
    } else {
      assert (chunks + [c])[1..] == chunks[1..] + [c];
      StreamAppend(chunks[1..], c);
      assert chunks[0].err == NoErr ==> (Open(chunks) <==> Open(chunks[1..])) by {
        assert chunks == [chunks[0]] + chunks[1..];
      }
    }
  }
}
