/**
 Media travels from the backend to the worker as a data URL (section 3 of RFC 2397): the backend
 encodes, the worker decodes. Both services appear here, and the two are proved to agree.
 */
module DataUrl {
  import opened Wrappers
  import opened Text
  import opened Base64

  const OCTET_STREAM := "application/octet-stream"

  datatype Media = Media(bytes: seq<Byte>, mimeType: string)

  /** Every failure carries the one code ErrMediaDecode. */
  datatype Error = MediaDecode

  /** What the worker does with an input: decode it, fetch it over HTTP, or refuse it. */
  datatype Outcome = Decoded(media: Media) | Fetch(url: string) | Refused(error: Error)

  function EncodeDataURL(data: seq<Byte>, mimeType: string): string {
    "data:" + (if mimeType == "" then OCTET_STREAM else mimeType) + ";base64," + Encode(data)
  }

  /** The first trimmed part that is neither empty nor the word base64; "" if there is none. */
  function MimeOf(parts: seq<string>): (m: string)
    ensures m != "base64"
  {
    if parts == [] then ""
    else
      var part := TrimSpace(parts[0]);
      if part == "" || part == "base64" then MimeOf(parts[1..]) else part
  }

  predicate MarksBase64(parts: seq<string>) {
    exists i :: 0 <= i < |parts| && TrimSpace(parts[i]) == "base64"
  }

  /** What decodeDataURL returns for the text after "data:". */
  function DecodeSpec(rest: string): Result<Media, Error> {
    var comma := IndexOf(rest, ',');
    if comma == |rest| then Err(MediaDecode)
    else
      var parts := Split(rest[..comma], ';');
      var bytes := Decode(rest[comma + 1..]);
      if !MarksBase64(parts) || bytes.None? then Err(MediaDecode)
      else Ok(Media(bytes.value, if MimeOf(parts) == "" then OCTET_STREAM else MimeOf(parts)))
  }

  lemma {:induction false} MimeOfSnoc(parts: seq<string>, part: string)
    ensures MimeOf(parts + [part]) == if MimeOf(parts) != "" then MimeOf(parts) else MimeOf([part])
  {
    if parts == [] {
      assert parts + [part] == [part];
    } else {
      assert (parts + [part])[1..] == parts[1..] + [part];
      MimeOfSnoc(parts[1..], part);
    }
  }

  /** The part says something other than the mark. */
  predicate Names(parts: seq<string>, i: int) {
    0 <= i < |parts| && TrimSpace(parts[i]) != "" && TrimSpace(parts[i]) != "base64"
  }

  /** The first part that names a type, or the default. */
  ghost predicate IsMime(parts: seq<string>, m: string) {
    && (forall i | Names(parts, i) && (forall k :: 0 <= k < i ==> !Names(parts, k)) :: m == TrimSpace(parts[i]))
    && ((forall i :: !Names(parts, i)) ==> m == OCTET_STREAM)
  }

  lemma {:induction false} MimeOfMeans(parts: seq<string>)
    ensures forall i | Names(parts, i) && (forall k :: 0 <= k < i ==> !Names(parts, k)) ::
              MimeOf(parts) == TrimSpace(parts[i])
    ensures (forall i :: !Names(parts, i)) <==> MimeOf(parts) == ""
  {
    if parts == [] {
    } else {
      MimeOfMeans(parts[1..]);
      forall i | Names(parts, i) && (forall k :: 0 <= k < i ==> !Names(parts, k))
        ensures MimeOf(parts) == TrimSpace(parts[i])
      {
        if i > 0 {
          assert !Names(parts, 0) && Names(parts[1..], i - 1);
          forall k | 0 <= k < i - 1 ensures !Names(parts[1..], k) { assert !Names(parts, k + 1); }
        }
      }
      if forall i :: !Names(parts, i) {
        forall i ensures !Names(parts[1..], i) { assert !Names(parts, i + 1); }
        assert !Names(parts, 0);
      } else {
        var i :| Names(parts, i);
        if i > 0 { assert Names(parts[1..], i - 1); }
      }
    }
  }

  /** What decoding a data URL means, said without the loop over its metadata. */
  ghost predicate Decodes(rest: string, r: Result<Media, Error>) {
    var comma := IndexOf(rest, ',');
    var parts := Split(rest[..comma], ';');
    if comma < |rest| && (exists i :: 0 <= i < |parts| && TrimSpace(parts[i]) == "base64")
       && Decode(rest[comma + 1..]).Some? then
      r.Ok? && r.value.bytes == Decode(rest[comma + 1..]).value && IsMime(parts, r.value.mimeType)
    else
      r == Err(MediaDecode)
  }

  lemma DecodeSpecDecodes(rest: string)
    ensures Decodes(rest, DecodeSpec(rest))
  {
    var comma := IndexOf(rest, ',');
    MimeOfMeans(Split(rest[..comma], ';'));
    hide MimeOf, Split, Names, Decode;
  }

  method DecodeDataURL(input: string) returns (r: Result<Media, Error>)
    requires "data:" <= input
    ensures r == DecodeSpec(input[5..]) && Decodes(input[5..], r)
  {
    hide Decodes, Decode, Split, TrimSpace;
    DecodeSpecDecodes(input[5..]);
    var rest := input[5..];
    var commaIdx := IndexOf(rest, ',');
    if commaIdx == |rest| {
      return Err(MediaDecode);
    }
    var parts := Split(rest[..commaIdx], ';');
    var mimeType := "";
    var isBase64 := false;
    for i := 0 to |parts|
      invariant mimeType == MimeOf(parts[..i])
      invariant isBase64 == MarksBase64(parts[..i])
    {
      assert parts[..i + 1] == parts[..i] + [parts[i]];
      MimeOfSnoc(parts[..i], parts[i]);
      assert MimeOf([parts[i]][1..]) == "";
      var part := TrimSpace(parts[i]);
      if part == "" {
        continue;
      }
      if part == "base64" {
        isBase64 := true;
        assert parts[..i + 1][i] == parts[i];
        continue;
      }
      if mimeType == "" {
        mimeType := part;
      }
    }
    assert parts[..|parts|] == parts;
    if mimeType == "" {
      mimeType := OCTET_STREAM;
    }
    if !isBase64 {
      return Err(MediaDecode);
    }
    var data := Decode(rest[commaIdx + 1..]);
    match data {
      case None => return Err(MediaDecode);
      case Some(bytes) => return Ok(Media(bytes, mimeType));
    }
  }

  /** What the worker does with any input, trimmed first. */
  function DispatchSpec(raw: string): Outcome {
    var input := TrimSpace(raw);
    if "data:" <= input then
      match DecodeSpec(input[5..])
      case Ok(media) => Decoded(media)
      case Err(e) => Refused(e)
    else if "http://" <= input || "https://" <= input then Fetch(input)
    else Refused(MediaDecode)
  }

  method DecodeDataURLOrFetch(raw: string) returns (o: Outcome)
    ensures o == DispatchSpec(raw)
    ensures var input := TrimSpace(raw);
            if "data:" <= input then
              && !o.Fetch?
              && Decodes(input[5..], if o.Decoded? then Ok(o.media) else Err(MediaDecode))
            else if "http://" <= input || "https://" <= input then o == Fetch(input)
            else o == Refused(MediaDecode)
  {
    var input := TrimSpace(raw);
    if input == "" {
      return Refused(MediaDecode);
    }
    if "data:" <= input {
      var r := DecodeDataURL(input);
      match r {
        case Ok(media) => return Decoded(media);
        case Err(e) => return Refused(e);
      }
    }
    if "http://" <= input || "https://" <= input {
      return Fetch(input);
    }
    return Refused(MediaDecode);
  }

  /** The part of a media type before its parameters, trimmed. */
  function BareType(mimeType: string): string {
    TrimSpace(mimeType[..IndexOf(mimeType, ';')])
  }

  /** The worker sees exactly what the backend wrote: trimming changes nothing. */
  lemma EncodedSurvivesTrim(data: seq<Byte>, mimeType: string)
    ensures var url := EncodeDataURL(data, mimeType);
            TrimSpace(url) == url && "data:" <= url
  {
    var url := EncodeDataURL(data, mimeType);
    var mt := if mimeType == "" then OCTET_STREAM else mimeType;
    assert url == "data:" + (mt + ";base64," + Encode(data));
    EncodeStaysInAlphabet(data);
    var last := url[|url| - 1];
    if Encode(data) == "" { assert last == ','; } else { assert last in Encode(data); }
    assert !IsSpace(last);
    TrimIdentity(url);
  }

  /** Without a comma in the type the metadata splits into the parts of the type and the mark. */
  lemma MetadataSplits(mt: string, mark: string, payload: string)
    requires ',' !in mt && ',' !in mark && ';' !in mark
    ensures var rest := mt + [';'] + mark + [','] + payload;
            var comma := IndexOf(rest, ',');
            && comma < |rest|
            && Split(rest[..comma], ';') == Split(mt, ';') + [mark]
            && rest[comma + 1..] == payload
  {
    var meta := mt + [';'] + mark;
    assert meta + [','] + payload == meta + ([','] + payload);
    IndexOfConcat(meta, [','] + payload, ',');
    SplitAppend(mt, mark, ';');
    var rest := meta + [','] + payload;
    assert rest[..|meta|] == meta && rest[|meta| + 1..] == payload;
  }

  /** The mark says base64 and gives no type. */
  lemma MarkedParts(parts: seq<string>, mark: string)
    requires mark == "base64"
    ensures MarksBase64(parts + [mark]) && MimeOf(parts + [mark]) == MimeOf(parts)
  {
    TrimIdentity(mark);
    assert (parts + [mark])[|parts|] == mark;
    MimeOfSnoc(parts, mark);
    assert MimeOf([mark][1..]) == "";
  }

  lemma MarkedText(mt: string, payload: string)
    ensures mt + ";base64," + payload == mt + [';'] + "base64" + [','] + payload
  {
    assert ";base64," == [';'] + "base64" + [','];
  }

  lemma DecodeMarked(data: seq<Byte>, mt: string, mark: string)
    requires ',' !in mt && mark == "base64"
    ensures var mime := MimeOf(Split(mt, ';'));
            DecodeSpec(mt + [';'] + mark + [','] + Encode(data))
            == Ok(Media(data, if mime == "" then OCTET_STREAM else mime))
  {
    MetadataSplits(mt, mark, Encode(data));
    MarkedParts(Split(mt, ';'), mark);
    DecodeEncode(data);
    hide MimeOf, MarksBase64, Split, Encode, Decode;
  }

  /** A media type without a comma: the metadata is the type, then the base64 mark. */
  lemma DecodeWithoutComma(data: seq<Byte>, mt: string)
    requires ',' !in mt
    ensures var mime := MimeOf(Split(mt, ';'));
            DecodeSpec(mt + ";base64," + Encode(data))
            == Ok(Media(data, if mime == "" then OCTET_STREAM else mime))
  {
    hide *;
    MarkedText(mt, Encode(data));
    DecodeMarked(data, mt, "base64");
  }

  /** What follows the first comma is refused when it holds a character outside the alphabet. */
  lemma PayloadRejected(mt: string, tail: string, c: char)
    requires ',' in mt && c in tail && !InEncoding(c) && c != '\r' && c != '\n'
    ensures DecodeSpec(mt + tail) == Err(MediaDecode)
  {
    hide Split, MarksBase64, MimeOf;
    var rest := mt + tail;
    IndexOfConcat(mt, tail, ',');
    var comma := IndexOf(mt, ',');
    assert rest[comma + 1..] == mt[comma + 1..] + tail;
    DecodeRejects(rest[comma + 1..], c);
  }

  /** A media type with a comma ends the metadata early, and what is left is not base64. */
  lemma DecodeWithComma(data: seq<Byte>, mt: string)
    requires ',' in mt
    ensures DecodeSpec(mt + ";base64," + Encode(data)) == Err(MediaDecode)
  {
    hide DecodeSpec, Encode;
    var tail := ";base64," + Encode(data);
    assert mt + tail == mt + ";base64," + Encode(data);
    assert tail[0] == ';';
    PayloadRejected(mt, tail, ';');
  }

  /**
   The round trip across the two services, for all bytes and every non-empty media type: the
   worker recovers the bytes and the bare type if and only if the type has no comma and its bare
   part is neither blank nor the word base64.
   */
  lemma RoundTrip(data: seq<Byte>, mimeType: string)
    requires mimeType != ""
    ensures DispatchSpec(EncodeDataURL(data, mimeType)) == Decoded(Media(data, BareType(mimeType)))
            <==> ',' !in mimeType && BareType(mimeType) != "" && BareType(mimeType) != "base64"
  {
    var url := EncodeDataURL(data, mimeType);
    EncodedSurvivesTrim(data, mimeType);
    assert url[5..] == mimeType + ";base64," + Encode(data);
    if ',' in mimeType {
      DecodeWithComma(data, mimeType);
    } else {
      DecodeWithoutComma(data, mimeType);
      var parts := Split(mimeType, ';');
      var i := IndexOf(mimeType, ';');
      assert mimeType[..|mimeType|] == mimeType;
      assert parts[0] == mimeType[..i];
    }
  }

  lemma PlainTypeSplits(mt: string)
    requires mt != "" && ';' !in mt && !IsSpace(mt[0]) && !IsSpace(mt[|mt| - 1]) && mt != "base64"
    ensures MimeOf(Split(mt, ';')) == mt
  {
    assert IndexOf(mt, ';') == |mt|;
    TrimIdentity(mt);
  }

  /** A type without parameters, separators or surrounding space comes back unchanged. */
  lemma RoundTripPlain(data: seq<Byte>, mt: string)
    requires mt != "" && mt != "base64" && ',' !in mt && ';' !in mt
    requires !IsSpace(mt[0]) && !IsSpace(mt[|mt| - 1])
    ensures DispatchSpec(EncodeDataURL(data, mt)) == Decoded(Media(data, mt))
  {
    var url := EncodeDataURL(data, mt);
    EncodedSurvivesTrim(data, mt);
    assert url[5..] == mt + ";base64," + Encode(data);
    DecodeWithoutComma(data, mt);
    PlainTypeSplits(mt);
  }

  /** Without a media type both services agree on application/octet-stream. */
  lemma RoundTripUntyped(data: seq<Byte>)
    ensures DispatchSpec(EncodeDataURL(data, "")) == Decoded(Media(data, OCTET_STREAM))
  {
    assert EncodeDataURL(data, "") == EncodeDataURL(data, OCTET_STREAM);
    RoundTripPlain(data, OCTET_STREAM);
  }
}
