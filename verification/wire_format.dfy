/**
 The choice of serial format for a socket session: the first entry of the quality-sorted
 Accept list that JSON, CBOR or ProtoBuf (tried in that order) matches; JSON when none does.
 Parsing and sorting the header happen before this and are not part of this model.
 */
module WireFormat {
  import opened Wrappers
  import Text

  /** A media type as it appears in an Accept entry (its parameters are not modelled). */
  datatype MediaType = MediaType(kind: string, subtype: string)

  datatype Format = Json | Cbor | ProtoBuf

  /** The media type each format is served as. */
  function MediaTypeOf(f: Format): MediaType {
    match f
    case Json => MediaType("application", "json")
    case Cbor => MediaType("application", "cbor")
    case ProtoBuf => MediaType("application", "protobuf")
  }

  /** `ContentType.match(pattern)`: a `*` in the pattern matches anything, other parts compare ignoring case. */
  predicate Matches(f: Format, pattern: MediaType) {
    var t := MediaTypeOf(f);
    && (pattern.kind == "*" || Text.EqualsIgnoreCase(pattern.kind, t.kind))
    && (pattern.subtype == "*" || Text.EqualsIgnoreCase(pattern.subtype, t.subtype))
  }

  /** The `when` over one entry: JSON, else CBOR, else ProtoBuf. */
  function Pick(pattern: MediaType): (r: Option<Format>)
    ensures r.None? <==> !Matches(Json, pattern) && !Matches(Cbor, pattern) && !Matches(ProtoBuf, pattern)
    ensures r.Some? ==> Matches(r.value, pattern)
    ensures r == Some(Cbor) ==> !Matches(Json, pattern)
    ensures r == Some(ProtoBuf) ==> !Matches(Json, pattern) && !Matches(Cbor, pattern)
  {
    if Matches(Json, pattern) then Some(Json)
    else if Matches(Cbor, pattern) then Some(Cbor)
    else if Matches(ProtoBuf, pattern) then Some(ProtoBuf)
    else None
  }

  /** The loop over the sorted entries, breaking at the first one some format matches. */
  function Negotiate(accepts: seq<MediaType>): Format {
    if |accepts| == 0 then Json
    else match Pick(accepts[0])
      case Some(f) => f
      case None => Negotiate(accepts[1..])
  }

  /** The entry a format was chosen by: some format matches it and none matches any entry before it. */
  predicate ChosenBy(accepts: seq<MediaType>, i: nat, f: Format) {
    i < |accepts| && Pick(accepts[i]) == Some(f) && forall j :: 0 <= j < i ==> Pick(accepts[j]).None?
  }

  /**
   The negotiated format is the one picked by the first entry any format matches, or JSON
   when no entry matches any.
   */
  lemma {:induction false} NegotiateChoice(accepts: seq<MediaType>)
    ensures || (exists i: nat :: ChosenBy(accepts, i, Negotiate(accepts)))
            || (Negotiate(accepts) == Json && forall i :: 0 <= i < |accepts| ==> Pick(accepts[i]).None?)
    decreases |accepts|
  {
    if |accepts| > 0 {
      var f := Negotiate(accepts);
      if Pick(accepts[0]).Some? {
        assert ChosenBy(accepts, 0, f);
      } else {
        var rest := accepts[1..];
        NegotiateChoice(rest);
        assert forall i :: 1 <= i < |accepts| ==> accepts[i] == rest[i - 1];
        if (exists i: nat :: ChosenBy(rest, i, f)) {
          var i: nat :| ChosenBy(rest, i, f);
          assert ChosenBy(accepts, i + 1, f);
        }
      }
    }
  }

  lemma NotEqualIgnoringCase(a: string, b: string, k: nat)
    requires |a| == |b| && k < |a| && Text.LowerChar(a[k]) != Text.LowerChar(b[k])
    ensures !Text.EqualsIgnoreCase(a, b)
  {
  }

  /** Each format's own media type picks that format and no earlier one. */
  lemma PickOwnType(f: Format)
    ensures Pick(MediaTypeOf(f)) == Some(f)
  {
    assert Text.EqualsIgnoreCase("application", "application");
    assert Text.EqualsIgnoreCase(MediaTypeOf(f).subtype, MediaTypeOf(f).subtype);
    match f
    case Json =>
    case Cbor =>
      NotEqualIgnoringCase("cbor", "json", 0);
    case ProtoBuf =>
      assert !Text.EqualsIgnoreCase("protobuf", "json");
      assert !Text.EqualsIgnoreCase("protobuf", "cbor");
  }

  /**
   A client that accepts exactly the media type of its format (as the client library sends it)
   gets that format, whatever entries of no format follow.
   */
  lemma NegotiateOwnType(f: Format, rest: seq<MediaType>)
    ensures Negotiate([MediaTypeOf(f)] + rest) == f
  {
    PickOwnType(f);
    assert ([MediaTypeOf(f)] + rest)[0] == MediaTypeOf(f);
  }

  /** A leading wildcard entry, for every type or for every application subtype, means JSON. */
  lemma WildcardMeansJson(rest: seq<MediaType>)
    ensures Negotiate([MediaType("*", "*")] + rest) == Json
    ensures Negotiate([MediaType("application", "*")] + rest) == Json
  {
    assert Text.EqualsIgnoreCase("application", "application");
    assert ([MediaType("*", "*")] + rest)[0] == MediaType("*", "*");
    assert ([MediaType("application", "*")] + rest)[0] == MediaType("application", "*");
  }

  /** An Accept list no format matches, the empty one included, falls back to JSON. */
  lemma NoMatchMeansJson(accepts: seq<MediaType>)
    requires forall i :: 0 <= i < |accepts| ==> Pick(accepts[i]).None?
    ensures Negotiate(accepts) == Json
  {
  }
}
