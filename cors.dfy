/**
 * The list of allowed origins that the CORS middleware builds from its
 * comma-separated configuration string (internal/middleware/cors.go). The
 * middleware itself, built by the gin CORS library, is not modelled.
 */
module Cors {

  import opened GoStrings

  /** Every element trimmed, in order. */
  function TrimAll(xs: seq<string>): seq<string>
  {
    seq(|xs|, k requires 0 <= k < |xs| => TrimSpace(xs[k]))
  }

  /** The middleware's range loop: trims every element in place, keeping its position. */
  method TrimEach(origins: array<string>)
    modifies origins
    ensures origins[..] == TrimAll(old(origins[..]))
  {
    for i := 0 to origins.Length
      invariant forall k :: 0 <= k < i ==> origins[k] == TrimSpace(old(origins[k]))
      invariant forall k :: i <= k < origins.Length ==> origins[k] == old(origins[k])
    {
      origins[i] := TrimSpace(origins[i]);
    }
  }

  /**
   * The origin list `CORS(allowedOrigins)` hands to the middleware: the
   * input split at every comma, each piece trimmed in place. There is one
   * origin more than there are commas; the i-th origin is the trimmed i-th
   * piece; no origin has surrounding white space or a comma.
   */
  method AllowedOrigins(allowedOrigins: string) returns (origins: seq<string>)
    ensures origins == TrimAll(Split(allowedOrigins, ','))
    ensures |origins| == Count(allowedOrigins, ',') + 1
    ensures forall k :: 0 <= k < |origins| ==> Trimmed(origins[k]) && ',' !in origins[k]
  {
    var pieces := Split(allowedOrigins, ',');
    var a := new string[|pieces|](k requires 0 <= k < |pieces| => pieces[k]);
    assert a[..] == pieces;
    TrimEach(a);
    origins := a[..];
    SplitCount(allowedOrigins, ',');
    SplitPiecesLackSeparator(allowedOrigins, ',');
    forall k | 0 <= k < |origins|
      ensures ',' !in origins[k]
    {
      TrimSpaceKeepsAbsent(pieces[k], ',');
    }
  }

  /** Running the trimming loop over its own output changes nothing. */
  lemma TrimAllIdempotent(xs: seq<string>)
    ensures TrimAll(TrimAll(xs)) == TrimAll(xs)
  {
    forall k | 0 <= k < |xs|
      ensures TrimAll(TrimAll(xs))[k] == TrimAll(xs)[k]
    {
      TrimSpaceIdempotent(xs[k]);
    }
  }

  /** Input without a comma gives the one trimmed origin. */
  lemma SingleOrigin(allowedOrigins: string)
    requires ',' !in allowedOrigins
    ensures TrimAll(Split(allowedOrigins, ',')) == [TrimSpace(allowedOrigins)]
  {
    SplitWithoutSeparator(allowedOrigins, ',');
  }

  /** A single origin already without surrounding white space or comma is kept as it is. */
  lemma ExactOrigin(allowedOrigins: string)
    requires ',' !in allowedOrigins && Trimmed(allowedOrigins)
    ensures TrimAll(Split(allowedOrigins, ',')) == [allowedOrigins]
  {
    SingleOrigin(allowedOrigins);
    TrimSpaceOfTrimmed(allowedOrigins);
  }

  /** The empty configuration gives one empty origin. */
  lemma EmptyOrigins()
    ensures TrimAll(Split("", ',')) == [""]
  {
    assert TrimSpace("") == "";
  }

  /** When no piece has surrounding white space, joining the origins with commas gives back the input. */
  lemma OriginsJoinBack(allowedOrigins: string)
    requires forall k :: 0 <= k < |Split(allowedOrigins, ',')| ==> Trimmed(Split(allowedOrigins, ',')[k])
    ensures Join(TrimAll(Split(allowedOrigins, ',')), ',') == allowedOrigins
  {
    var pieces := Split(allowedOrigins, ',');
    forall k | 0 <= k < |pieces|
      ensures TrimAll(pieces)[k] == pieces[k]
    {
      TrimSpaceOfTrimmed(pieces[k]);
    }
    assert TrimAll(pieces) == pieces;
    JoinSplit(allowedOrigins, ',');
  }
}
