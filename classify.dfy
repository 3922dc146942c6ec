/**
 * The resolution classifier: what the converter does with the output of the
 * probe tool once that tool has exited.  The probe's JSON is taken as an
 * abstract outcome (unparsable, or the first video stream and the container
 * duration if present).  The result is either a quality class with the
 * aspect ratio and the duration, or the rejection that settles the promise.
 */
module Classify {
  import opened Text

  /** The `width` and `height` of the probe's first video stream. */
  datatype Stream = Stream(width: nat, height: nat)

  /**
   * What `JSON.parse` makes of the probe's standard output.  `Parsed` with no
   * stream stands for a document whose `streams[0]` is absent (also `null`
   * or a document without `streams`); `duration` is the `format.duration`
   * field, absent when the document has no `format`.
   */
  datatype ProbeOutput =
    | Unparsable
    | Parsed(firstStream: Option<Stream>, duration: Option<string>)

  /** The aspect ratio `width / height`, kept as the exact pair of integers. */
  datatype Ratio = Ratio(num: nat, den: nat)

  datatype Classified = Classified(iClass: int, ratio: Ratio, duration: string)

  /**
   * One attempt of the `close` handler to settle the classification promise:
   * resolve with a value, reject with an error code, or throw (an exception
   * inside an event handler is not caught by the promise).
   */
  datatype Settlement =
    | Resolve(value: Classified)
    | Reject(code: int)
    | Throw

  /** Exit code of a probe output that cannot be parsed. */
  const ParseFailedCode := 3
  /** Exit code of a probe output without a first video stream. */
  const NoStreamCode := 4

  /**
   * The quality class of a source of the given height: -1 (1080p ladder),
   * 0 (720p), 1 (480p) or 2 (360p).  Lower class, more rungs.
   */
  function QualityClass(height: int): (c: int)
    ensures -1 <= c <= 2
    ensures c == -1 <==> height > 720
    ensures c == 0 <==> 480 < height <= 720
    ensures c == 1 <==> 360 <= height <= 480
    ensures c == 2 <==> height < 360
  {
    if height > 720 then -1
    else if height > 480 then 0
    else if height >= 360 then 1
    else 2
  }

  /** A taller source never gets a larger class number. */
  lemma QualityClassMonotonic(h1: int, h2: int)
    requires h1 <= h2
    ensures QualityClass(h2) <= QualityClass(h1)
  {
  }

  /**
   * The settlement attempts of the `close` handler, in order.  A parse
   * failure rejects with code 3, and the handler then goes on with an
   * undefined result, which fails the stream test and rejects again with
   * code 4.
   */
  function Attempts(p: ProbeOutput): (a: seq<Settlement>)
    ensures 1 <= |a| <= 2
  {
    match p
    case Unparsable => [Reject(ParseFailedCode), Reject(NoStreamCode)]
    case Parsed(None, _) => [Reject(NoStreamCode)]
    case Parsed(Some(_), None) => [Throw]
    case Parsed(Some(s), Some(d)) => [Resolve(Classified(QualityClass(s.height), Ratio(s.width, s.height), d))]
  }

  /** A promise takes the first settlement; later ones have no effect. */
  function Settle(attempts: seq<Settlement>): Settlement
    requires |attempts| > 0
  {
    attempts[0]
  }

  /** The outcome of classification for a given probe output. */
  function Classification(p: ProbeOutput): (r: Settlement)
    ensures r == Reject(ParseFailedCode) <==> p.Unparsable?
    ensures r == Reject(NoStreamCode) <==> p.Parsed? && p.firstStream.None?
    ensures r == Throw <==> p.Parsed? && p.firstStream.Some? && p.duration.None?
    ensures r.Resolve? <==> p.Parsed? && p.firstStream.Some? && p.duration.Some?
    ensures r.Resolve? ==> var s := p.firstStream.value;
                           r.value == Classified(QualityClass(s.height), Ratio(s.width, s.height), p.duration.value)
  {
    Settle(Attempts(p))
  }

  /** A parse failure yields code 3 although the handler also attempts to reject with code 4. */
  lemma ParseFailureWins()
    ensures Reject(NoStreamCode) in Attempts(Unparsable)
    ensures Classification(Unparsable) == Reject(ParseFailedCode)
  {
  }
}
