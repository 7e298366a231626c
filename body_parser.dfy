/** The body reader shared by the body parsers: the request stream chosen by
  * its `Content-Encoding`, then read to the end unless it grows past a
  * size limit, in which case the read stops with status 413. */
module BodyParser {
  import opened Wrappers
  import opened Text

  newtype Byte = b: int | 0 <= b < 256

  /** How the body reaches the reader: inflated, gunzipped, or as sent. */
  datatype Decoder = Inflate | Gunzip | Identity

  /** What `getContentStream` returns: the stream and the declared length,
    * or a status and an error message. */
  datatype ContentStream =
    | Stream(decoder: Decoder, length: Option<string>)
    | Refused(status: nat, message: string)

  /** The request's `Content-Encoding` in lower case, "identity" when it is
    * missing or empty. */
  function Encoding(headers: map<string, string>): (e: string)
    ensures "content-encoding" in headers && headers["content-encoding"] != "" ==> e == Lower(headers["content-encoding"])
    ensures !("content-encoding" in headers && headers["content-encoding"] != "") ==> e == "identity"
  {
    Lower(if "content-encoding" in headers && headers["content-encoding"] != "" then headers["content-encoding"] else "identity")
  }

  /** `getContentStream`: deflate, gzip and identity are read (the
    * encoding compared in lower case); any other encoding is refused with
    * status 415. */
  function ContentStreamOf(headers: map<string, string>): (r: ContentStream)
    ensures var e := Encoding(headers);
      (r.Stream? <==> e == "deflate" || e == "gzip" || e == "identity")
    ensures r.Stream? ==> r.length == (if "content-length" in headers then Some(headers["content-length"]) else None)
    ensures r.Stream? ==> (r.decoder == Inflate <==> Encoding(headers) == "deflate")
    ensures r.Stream? ==> (r.decoder == Gunzip <==> Encoding(headers) == "gzip")
    ensures r.Refused? ==> r.status == 415 && r.message == "unsupported content encoding " + Encoding(headers)
  {
    var e := Encoding(headers);
    var length := if "content-length" in headers then Some(headers["content-length"]) else None;
    if e == "deflate" then Stream(Inflate, length)
    else if e == "gzip" then Stream(Gunzip, length)
    else if e == "identity" then Stream(Identity, length)
    else Refused(415, "unsupported content encoding " + e)
  }

  /** A request without an encoding is read as it is. */
  lemma NoEncodingIsIdentity(headers: map<string, string>)
    requires "content-encoding" !in headers
    ensures ContentStreamOf(headers).Stream? && ContentStreamOf(headers).decoder == Identity
  {
    var t := "identity";
    forall i | 0 <= i < |t| ensures LowerChar(t[i]) == t[i] {}
    LowerIs(t, t);
  }

  /** The encoding's case does not matter. */
  lemma EncodingCaseInsensitive(a: map<string, string>, b: map<string, string>)
    requires "content-encoding" in a && "content-encoding" in b
    requires a["content-encoding"] != "" && b["content-encoding"] != ""
    requires Lower(a["content-encoding"]) == Lower(b["content-encoding"])
    requires ("content-length" in a <==> "content-length" in b)
    requires "content-length" in a ==> a["content-length"] == b["content-length"]
    ensures ContentStreamOf(a) == ContentStreamOf(b)
  {
  }

  /** What `readAllBody` resolves with. */
  datatype BodyResult = TooLarge(status: nat, message: string) | Body(data: seq<Byte>)

  const OverLimit := TooLarge(413, "out of max body size limit")

  function TotalLength(chunks: seq<seq<Byte>>): (n: nat)
  {
    if chunks == [] then 0 else TotalLength(chunks[..|chunks| - 1]) + |chunks[|chunks| - 1]|
  }

  function Concat(chunks: seq<seq<Byte>>): (r: seq<Byte>)
    ensures |r| == TotalLength(chunks)
  {
    if chunks == [] then [] else Concat(chunks[..|chunks| - 1]) + chunks[|chunks| - 1]
  }

  /** The promise's value once the stream has delivered `chunks` (and, if
    * `ended`, its end): 413 as soon as the total seen at a chunk or at the
    * end passes the limit, otherwise, after the end, all the data; `None`
    * while still pending. */
  function Outcome(chunks: seq<seq<Byte>>, ended: bool, limit: int): Option<BodyResult>
  {
    if (chunks != [] || ended) && TotalLength(chunks) > limit then Some(OverLimit)
    else if ended then Some(Body(Concat(chunks)))
    else None
  }

  lemma {:induction false} TotalLengthMonotone(chunks: seq<seq<Byte>>, k: nat)
    requires k <= |chunks|
    ensures TotalLength(chunks[..k]) <= TotalLength(chunks)
    decreases |chunks|
  {
    if k < |chunks| {
      assert chunks[..|chunks| - 1][..k] == chunks[..k];
      TotalLengthMonotone(chunks[..|chunks| - 1], k);
    } else {
      assert chunks[..k] == chunks;
    }
  }

  /** `readAllBody` over a stream that delivers `chunks` and then, if
    * `ended`, ends. The limit is checked after every chunk; once it is
    * passed the promise is settled with 413 and the remaining chunks are
    * dropped (the stream is paused instead). `paused` counts those drops. */
  method ReadAllBody(chunks: seq<seq<Byte>>, ended: bool, limit: int) returns (r: Option<BodyResult>, paused: nat)
    ensures r == Outcome(chunks, ended, limit)
    ensures r == Some(OverLimit) <==> (chunks != [] || ended) && TotalLength(chunks) > limit
    ensures r.Some? && r.value.Body? ==> |r.value.data| <= limit
    ensures paused > 0 ==> r == Some(OverLimit)
  {
    var list: seq<seq<Byte>> := [];
    var length := 0;
    var isBreak := false;
    r := None;
    paused := 0;
    var i := 0;
    while i < |chunks|
      invariant 0 <= i <= |chunks|
      invariant isBreak <==> r.Some?
      invariant !isBreak ==> list == chunks[..i] && length == TotalLength(list) && (i > 0 ==> length <= limit)
      invariant isBreak ==> r == Some(OverLimit) && i > 0 && TotalLength(chunks[..i]) > limit
      invariant paused > 0 ==> isBreak
    {
      assert chunks[..i + 1][..i] == chunks[..i];
      if isBreak {
        paused := paused + 1;
      } else {
        list := list + [chunks[i]];
        length := length + |chunks[i]|;
        if length > limit {
          isBreak := true;
          r := Some(OverLimit);
        }
      }
      i := i + 1;
    }
    assert chunks[..i] == chunks;
    if ended && !isBreak {
      if length > limit {
        r := Some(OverLimit);
      } else {
        r := Some(Body(Concat(list)));
      }
    }
  }

  /** A body at the limit is read whole; a single byte more is refused. */
  lemma LimitIsInclusive(chunks: seq<seq<Byte>>, limit: int)
    requires TotalLength(chunks) == limit
    ensures Outcome(chunks, true, limit) == Some(Body(Concat(chunks)))
    ensures Outcome(chunks + [[0]], true, limit) == Some(OverLimit)
  {
    assert (chunks + [[0]])[..|chunks|] == chunks;
  }

  /** Once refused, more data or the end changes nothing: the first
    * settlement is the one the promise keeps. */
  lemma RefusalIsFinal(chunks: seq<seq<Byte>>, more: seq<seq<Byte>>, ended: bool, limit: int)
    requires Outcome(chunks, false, limit) == Some(OverLimit)
    ensures Outcome(chunks + more, ended, limit) == Some(OverLimit)
  {
    assert (chunks + more)[..|chunks|] == chunks;
    TotalLengthMonotone(chunks + more, |chunks|);
  }
}
