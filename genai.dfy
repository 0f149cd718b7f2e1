/** The data-URL splitter of the generative-AI service: it recognises the
    base64 form of a `data:` URL (RFC 2397, section 3) exactly as the regular
    expression `^data:([^;]+);base64,(.*)$` does, and splits it into the
    media type and the payload.  The accepted set is narrower than RFC 2397:
    the media type is mandatory, it may carry no parameters, and the
    `;base64` marker is mandatory. */
module GenAi {
  import opened Wrappers
  import opened Text

  /** The `{ mimeType, base64 }` object returned on success. */
  datatype DataUrl = DataUrl(mimeType: string, base64: string)

  const Scheme: string := "data:"
  const Marker: string := "base64,"

  /** The characters that `.` in a JavaScript regular expression does not
      match: line feed, carriage return, line separator, paragraph separator. */
  predicate IsLineTerminator(c: char) {
    c == '\n' || c == '\r' || c == '\U{2028}' || c == '\U{2029}'
  }

  predicate NoLineTerminator(s: string) {
    forall i | 0 <= i < |s| :: !IsLineTerminator(s[i])
  }

  /** The text the two capture groups came from. */
  function Format(d: DataUrl): string {
    Scheme + d.mimeType + ";" + Marker + d.base64
  }

  /** What the two capture groups can hold: `[^;]+` is one or more
      characters other than `;` (line terminators included), `(.*)$` is any
      run of characters other than line terminators up to the end of the
      input. */
  predicate WellFormed(d: DataUrl) {
    |d.mimeType| >= 1 && ';' !in d.mimeType && NoLineTerminator(d.base64)
  }

  /** `parseDataUrl`: `None` stands for `null`.  The media type ends at the
      first `;` after the scheme, since `[^;]+` cannot cross one. */
  function ParseDataUrl(s: string): (r: Option<DataUrl>)
    ensures r.Some? ==> WellFormed(r.value) && Format(r.value) == s
  {
    match StripPrefix(s, Scheme)
    case None => None
    case Some(rest) =>
      match SplitAtFirst(rest, ';')
      case None => None
      case Some(cut) =>
        var mimeType := cut.0;
        if |mimeType| == 0 then None
        else
          match StripPrefix(cut.1, Marker)
          case None => None
          case Some(payload) =>
            if NoLineTerminator(payload) then
              FormatParts(mimeType, payload);
              Some(DataUrl(mimeType, payload))
            else None
  }

  lemma FormatParts(mimeType: string, payload: string)
    ensures Format(DataUrl(mimeType, payload)) == Scheme + (mimeType + [';'] + (Marker + payload))
  {
  }

  /** Every pair the groups can hold is recovered from its text. */
  lemma ParseFormat(d: DataUrl)
    requires WellFormed(d)
    ensures ParseDataUrl(Format(d)) == Some(d)
  {
    var rest := d.mimeType + [';'] + (Marker + d.base64);
    assert Format(d) == Scheme + rest;
    StripPrefixOf(Scheme, rest);
    SplitAtFirstOf(d.mimeType, ';', Marker + d.base64);
    StripPrefixOf(Marker, d.base64);
  }

  /** The input is accepted with result `d` exactly when it is the text of a
      pair the capture groups can hold: the regular expression's language,
      with a unique split. */
  lemma ParseDataUrlExactly(s: string, d: DataUrl)
    ensures ParseDataUrl(s) == Some(d) <==> WellFormed(d) && Format(d) == s
  {
    if WellFormed(d) && Format(d) == s {
      ParseFormat(d);
    }
  }

  /** An input that does not start with the exact, case-sensitive `data:`
      gives `null`. */
  lemma RejectsOtherSchemes(s: string)
    requires !(Scheme <= s)
    ensures ParseDataUrl(s) == None
  {
  }

  /** An empty media type gives `null`, since `[^;]+` needs one character. */
  lemma RejectsEmptyMediaType(rest: string)
    ensures ParseDataUrl(Scheme + ";" + rest) == None
  {
  }

  /** When the text after the first `;` is not `base64,` the result is
      `null`: a missing marker, and media-type parameters such as
      `;charset=utf-8;base64,`, are refused. */
  lemma RejectsWithoutMarker(mimeType: string, rest: string)
    requires ';' !in mimeType
    requires !(Marker <= rest)
    ensures ParseDataUrl(Scheme + mimeType + ";" + rest) == None
  {
    var s := Scheme + mimeType + ";" + rest;
    assert s == Scheme + (mimeType + [';'] + rest);
    if ParseDataUrl(s).Some? {
      var d := ParseDataUrl(s).value;
      MediaTypeEndsAtFirstSemicolon(d, mimeType, rest);
      assert false;
    }
  }

  /** A payload holding a line terminator gives `null`: `.` does not match
      it, and `$` without the `m` flag only matches at the end of input. */
  lemma RejectsLineTerminator(mimeType: string, payload: string, i: nat)
    requires i < |payload| && IsLineTerminator(payload[i])
    ensures ParseDataUrl(Format(DataUrl(mimeType, payload))) == None
  {
    var s := Format(DataUrl(mimeType, payload));
    if ParseDataUrl(s).Some? {
      NoMatchAcrossLineTerminator(ParseDataUrl(s).value, mimeType, payload, i);
    }
  }

  lemma NoMatchAcrossLineTerminator(d: DataUrl, mimeType: string, payload: string, i: nat)
    requires i < |payload| && IsLineTerminator(payload[i])
    ensures !(WellFormed(d) && Format(d) == Format(DataUrl(mimeType, payload)))
  {
    if WellFormed(d) && Format(d) == Format(DataUrl(mimeType, payload)) {
      FormatParts(mimeType, payload);
      // cut the input at its first `;`, which may lie inside `mimeType`
      var before, after: string;
      if ';' in mimeType {
        var j := FirstIndexOf(mimeType, ';').value;
        before, after := mimeType[..j], mimeType[j + 1..] + [';'];
        assert mimeType == before + [';'] + mimeType[j + 1..];
      } else {
        before, after := mimeType, [];
      }
      assert mimeType + [';'] == before + [';'] + after;
      var rest := after + (Marker + payload);
      assert mimeType + [';'] + (Marker + payload) == before + [';'] + rest;
      MediaTypeEndsAtFirstSemicolon(d, before, rest);
      // so the payload found ends with the given one
      var front := (after + Marker)[|Marker|..];
      assert rest == (after + Marker) + payload;
      assert d.base64 == rest[|Marker|..] == front + payload;
      SuffixKeepsLineTerminator(front, payload, i);
      assert false;
    }
  }

  lemma SuffixKeepsLineTerminator(front: string, payload: string, i: nat)
    requires i < |payload| && IsLineTerminator(payload[i])
    ensures !NoLineTerminator(front + payload)
  {
    assert (front + payload)[|front| + i] == payload[i];
  }

  /** Whatever a match covers, its media type is the text between `data:`
      and the first `;`, and its payload is all that follows `base64,`. */
  lemma MediaTypeEndsAtFirstSemicolon(d: DataUrl, mimeType: string, rest: string)
    requires WellFormed(d) && ';' !in mimeType
    requires Format(d) == Scheme + (mimeType + [';'] + rest)
    ensures d.mimeType == mimeType && rest == Marker + d.base64
  {
    FormatParts(d.mimeType, d.base64);
    var inner := d.mimeType + [';'] + (Marker + d.base64);
    StripPrefixOf(Scheme, inner);
    StripPrefixOf(Scheme, mimeType + [';'] + rest);
    SplitAtFirstOf(mimeType, ';', rest);
    SplitAtFirstOf(d.mimeType, ';', Marker + d.base64);
  }

  /** RFC 2397 allows parameters before `;base64`; this splitter does not:
      `data:text/plain;charset=utf-8;base64,SGk=` gives `null`. */
  lemma RejectsCharsetParameter()
    ensures ParseDataUrl(Scheme + "text/plain" + ";charset=utf-8" + ";" + Marker + "SGk=") == None
  {
    var rest := "charset=utf-8" + ";" + Marker + "SGk=";
    assert rest[0] == 'c' && Marker[0] == 'b';
    assert Scheme + "text/plain" + ";charset=utf-8" + ";" + Marker + "SGk=" == Scheme + "text/plain" + ";" + rest;
    RejectsWithoutMarker("text/plain", rest);
  }

  /** The payload may be empty, since `(.*)` matches nothing:
      `data:image/png;base64,` is accepted. */
  lemma AcceptsEmptyPayload()
    ensures ParseDataUrl(Scheme + "image/png" + ";" + Marker) == Some(DataUrl("image/png", ""))
  {
    assert Format(DataUrl("image/png", "")) == Scheme + "image/png" + ";" + Marker;
    ParseFormat(DataUrl("image/png", ""));
  }

  /** A line break is let through in the media type, since `[^;]` matches
      it ... */
  lemma AcceptsLineBreakInMediaType()
    ensures ParseDataUrl(Scheme + "image/\npng" + ";" + Marker + "AA==") == Some(DataUrl("image/\npng", "AA=="))
  {
    var d := DataUrl("image/\npng", "AA==");
    assert forall i | 0 <= i < |d.mimeType| :: d.mimeType[i] != ';';
    ParseFormat(d);
  }

  /** ... and refused in the payload, since `.` does not. */
  lemma RejectsLineBreakInPayload()
    ensures ParseDataUrl(Scheme + "image/png" + ";" + Marker + "AA\n==") == None
  {
    RejectsLineTerminator("image/png", "AA\n==", 2);
  }
}
