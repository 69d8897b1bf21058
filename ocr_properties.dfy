/** What the field extractor promises, stated over `OcrService`'s definitions. */
module OcrProperties {
  import opened Wrappers
  import opened Text
  import opened Patterns
  import opened OcrService

  /** How many fields carry the name `name`. */
  function CountNamed(fields: seq<OcrField>, name: string): (n: nat)
    ensures n <= |fields|
    ensures n == 0 <==> forall k :: 0 <= k < |fields| ==> fields[k].name != name
  {
    if |fields| == 0 then 0
    else (if fields[0].name == name then 1 else 0) + CountNamed(fields[1..], name)
  }

  /** How many times `x` occurs in `xs`. */
  function Occurrences(xs: seq<string>, x: string): (n: nat)
    ensures n <= |xs|
    ensures n == 0 <==> x !in xs
  {
    if |xs| == 0 then 0
    else (if xs[0] == x then 1 else 0) + Occurrences(xs[1..], x)
  }

  lemma {:induction false} CountNamedAppend(a: seq<OcrField>, b: seq<OcrField>, name: string)
    ensures CountNamed(a + b, name) == CountNamed(a, name) + CountNamed(b, name)
  {
    if |a| > 0 {
      assert (a + b)[1..] == a[1..] + b;
      CountNamedAppend(a[1..], b, name);
    } else {
      assert a + b == b;
    }
  }

  lemma {:induction false} OccurrencesAppend(a: seq<string>, b: seq<string>, x: string)
    ensures Occurrences(a + b, x) == Occurrences(a, x) + Occurrences(b, x)
  {
    if |a| > 0 {
      assert (a + b)[1..] == a[1..] + b;
      OccurrencesAppend(a[1..], b, x);
    } else {
      assert a + b == b;
    }
  }

  /** The ID field each document type needs: the UID, the PAN, or (any other tag) a document number. */
  predicate IdFound(text: string, documentType: string) {
    if documentType == AadhaarTag then Find(Uid, text).Some?
    else if documentType == PanTag then Find(FuzzyPan, text).Some?
    else DefaultDocumentNumber(text).Some?
  }

  /** The reasons the chosen parser records itself, before the overall validity check. */
  function ParserReasons(text: string, documentType: string): seq<string> {
    if documentType == AadhaarTag then ParseAadhaar(text).rejectionReasons
    else if documentType == PanTag then ParsePan(text, Lines(text)).rejectionReasons
    else []
  }

  /** The fields the chosen path produces, in its own order. */
  function PathFields(text: string, documentType: string): seq<OcrField> {
    if documentType == AadhaarTag then ParseAadhaar(text).ocrFields
    else if documentType == PanTag then ParsePan(text, Lines(text)).ocrFields
    else DefaultFields(text)
  }

  // ---------------------------------------------------------------- parseKYCData as a whole

  /**
   * Every result has clarity score 85 and no fraud flags; its fields are exactly the chosen
   * path's fields in that path's order; and it is valid exactly when the document type's
   * ID field was found.
   */
  lemma ParseKycResult(text: string, documentType: string)
    ensures var r := ParseKyc(text, documentType);
      && r.clarityScore == 85
      && r.fraudFlags == []
      && r.ocrFields == PathFields(text, documentType)
      && (r.isValid <==> IdFound(text, documentType))
  {
    if documentType == AadhaarTag {
      AadhaarIdField(text);
      var p := ParseAadhaar(text);
      assert ParseKyc(text, documentType) == RequireData(Merge(BaseResult, p));
      MergedParser(p, Find(Uid, text).Some?);
    } else if documentType == PanTag {
      PanIdField(text, Lines(text));
      var p := ParsePan(text, Lines(text));
      assert ParseKyc(text, documentType) == RequireData(Merge(BaseResult, p));
      MergedParser(p, Find(FuzzyPan, text).Some?);
    }
  }

  /**
   * A parser whose own verdict is "valid" with at least one field when `found` and
   * "invalid" otherwise, merged into the base result and checked for data.
   */
  lemma MergedParser(p: ParserResult, found: bool)
    requires found ==> |p.ocrFields| > 0 && p.isValid == Some(true)
    requires !found ==> p.isValid == Some(false)
    ensures var r := RequireData(Merge(BaseResult, p));
      r.clarityScore == 85 && r.fraudFlags == [] && r.ocrFields == p.ocrFields && (r.isValid <==> found)
  {
    assert Merge(BaseResult, p).ocrFields == p.ocrFields;
  }

  /**
   * The overall validity check: without fields the result is invalid and its reasons are
   * the parser's own followed by exactly one "No recognizable data found."; with fields the
   * reasons are the parser's own and the generic reason is absent.
   */
  lemma ParseKycReasons(text: string, documentType: string)
    ensures var r := ParseKyc(text, documentType);
      && NoData !in ParserReasons(text, documentType)
      && (|r.ocrFields| == 0 ==>
            !r.isValid &&
            r.rejectionReasons == ParserReasons(text, documentType) + [NoData] &&
            Occurrences(r.rejectionReasons, NoData) == 1)
      && (|r.ocrFields| > 0 ==> r.rejectionReasons == ParserReasons(text, documentType))
  {
    var reasons := ParserReasons(text, documentType);
    if documentType == AadhaarTag {
      AadhaarIdField(text);
      var m := Merge(BaseResult, ParseAadhaar(text));
      assert ParseKyc(text, documentType) == RequireData(m) && m.rejectionReasons == reasons;
      RequireDataReasons(m);
    } else if documentType == PanTag {
      PanIdField(text, Lines(text));
      var m := Merge(BaseResult, ParsePan(text, Lines(text)));
      assert ParseKyc(text, documentType) == RequireData(m) && m.rejectionReasons == reasons;
      RequireDataReasons(m);
    } else {
      var m := Merge(BaseResult.(ocrFields := DefaultFields(text)), ParserResult(None, [], []));
      assert ParseKyc(text, documentType) == RequireData(m) && m.rejectionReasons == reasons;
      RequireDataReasons(m);
    }
  }

  /** The data check adds the generic reason once, and only when there are no fields. */
  lemma RequireDataReasons(m: ValidationResult)
    requires NoData !in m.rejectionReasons
    ensures var r := RequireData(m);
      && (|r.ocrFields| == 0 ==>
            !r.isValid && r.rejectionReasons == m.rejectionReasons + [NoData] &&
            Occurrences(r.rejectionReasons, NoData) == 1)
      && (|r.ocrFields| > 0 ==> r.rejectionReasons == m.rejectionReasons)
  {
    OccurrencesAppend(m.rejectionReasons, [NoData], NoData);
    assert Occurrences([NoData], NoData) == 1;
  }

  /**
   * Any tag other than the two known ones takes the default path: at most one field, a
   * "Document Number" at confidence 80 holding the leftmost `[A-Z0-9]{6,12}` token.
   */
  lemma DefaultPath(text: string, documentType: string)
    requires documentType != AadhaarTag && documentType != PanTag
    ensures var r := ParseKyc(text, documentType);
      && |r.ocrFields| <= 1
      && (Find(IdToken, text).Some? <==> |r.ocrFields| == 1)
      && (|r.ocrFields| == 1 ==> r.ocrFields[0] == Field(DocumentNumberLabel, Find(IdToken, text).value, 80))
  {
    DateFilterVacuous(text);
  }

  /**
   * The date filter of the default path never removes the token: a `[A-Z0-9]` token cannot
   * contain the `/` or `-` of a date fragment.
   */
  lemma DateFilterVacuous(text: string)
    ensures DefaultDocumentNumber(text) == Find(IdToken, text)
  {
    if Find(IdToken, text).Some? {
      FoundIdTokenShape(text);
      NoDateFragmentInToken(Find(IdToken, text).value);
    }
  }

  // ---------------------------------------------------------------- Aadhaar

  /**
   * With a UID match the first field is "Aadhaar Number" holding the leftmost match at
   * confidence 90 and nothing is rejected; without one the parser says invalid, records the
   * one reason, and no field is an Aadhaar number.
   */
  lemma AadhaarIdField(text: string)
    ensures var r := ParseAadhaar(text);
      && (Find(Uid, text).Some? ==>
            |r.ocrFields| > 0 && r.ocrFields[0] == Field(AadhaarLabel, Find(Uid, text).value, 90) &&
            r.isValid == Some(true) && r.rejectionReasons == [])
      && (Find(Uid, text).None? ==>
            r.isValid == Some(false) && r.rejectionReasons == [MissingAadhaar] &&
            CountNamed(r.ocrFields, AadhaarLabel) == 0)
  {
    var r := ParseAadhaar(text);
    if Find(Uid, text).None? {
      CountNamedAppend(GenderField(text), BirthField(text, 85, 80), AadhaarLabel);
      assert r.ocrFields == GenderField(text) + BirthField(text, 85, 80);
    }
  }

  /** The text of the word "female" contains the word "male". */
  lemma FemaleMentionsMale(text: string)
    ensures ContainsFolded(text, "female") ==> ContainsFolded(text, "male")
  {
    if ContainsFolded(text, "female") {
      ContainsFoldedInfix(text, "female", 2, 6);
      assert "female"[2..6] == "male";
    }
  }

  /** The Aadhaar ID field, when the UID pattern matches. */
  function AadhaarIdPart(text: string): (r: seq<OcrField>)
    ensures |r| <= 1 && CountNamed(r, GenderLabel) == 0 && CountNamed(r, DobLabel) == 0 && CountNamed(r, YobLabel) == 0
  {
    match Find(Uid, text)
    case Some(u) => [Field(AadhaarLabel, u, 90)]
    case None => []
  }

  /** The Aadhaar fields are the ID field, then the gender field, then the birth field. */
  lemma AadhaarLayout(text: string)
    ensures ParseAadhaar(text).ocrFields == AadhaarIdPart(text) + GenderField(text) + BirthField(text, 85, 80)
  {
  }

  /**
   * At most one Gender field, at confidence 85: "Female" exactly when "female" occurs in any
   * case (although such text also contains "male"), "Male" exactly when "male" occurs and
   * "female" does not, and none when "male" does not occur at all.
   */
  lemma AadhaarGender(text: string)
    ensures var r := ParseAadhaar(text);
      && CountNamed(r.ocrFields, GenderLabel) <= 1
      && (Field(GenderLabel, "Female", 85) in r.ocrFields <==> ContainsFolded(text, "female"))
      && (Field(GenderLabel, "Male", 85) in r.ocrFields <==> ContainsFolded(text, "male") && !ContainsFolded(text, "female"))
      && (CountNamed(r.ocrFields, GenderLabel) == 0 <==> !ContainsFolded(text, "male"))
  {
    var idPart, g, b := AadhaarIdPart(text), GenderField(text), BirthField(text, 85, 80);
    var fields := ParseAadhaar(text).ocrFields;
    AadhaarLayout(text);
    FemaleMentionsMale(text);
    CountNamedAppend(idPart, g, GenderLabel);
    CountNamedAppend(idPart + g, b, GenderLabel);
    assert CountNamed(b, GenderLabel) == 0;
    assert |g| <= 1 && CountNamed(g, GenderLabel) == |g|;
    var male, female := Field(GenderLabel, "Male", 85), Field(GenderLabel, "Female", 85);
    assert male !in idPart && male !in b;
    assert female !in idPart && female !in b;
    assert fields == idPart + g + b;
    assert male in fields <==> male in g;
    assert female in fields <==> female in g;
    assert |g| == 1 ==> fields[|idPart|] == g[0];
  }

  /**
   * A parser using `BirthField` emits at most one of DOB and Year of Birth, and the DOB
   * whenever a `dd/mm/yyyy` date occurs.
   */
  lemma BirthFieldChoice(text: string, dobConfidence: int, yobConfidence: int)
    ensures var b := BirthField(text, dobConfidence, yobConfidence);
      && CountNamed(b, DobLabel) + CountNamed(b, YobLabel) == |b| <= 1
      && CountNamed(b, GenderLabel) == 0
      && (Find(Dob, text).Some? ==> b == [Field(DobLabel, Find(Dob, text).value, dobConfidence)])
      && (Find(Dob, text).None? && Find(Year, text).Some? ==> b == [Field(YobLabel, Find(Year, text).value, yobConfidence)])
      && (Find(Dob, text).None? && Find(Year, text).None? ==> b == [])
  {
  }

  /** In the Aadhaar result: at most one of DOB (confidence 85) and Year of Birth (confidence 80), DOB preferred. */
  lemma AadhaarBirth(text: string)
    ensures var r := ParseAadhaar(text);
      && CountNamed(r.ocrFields, DobLabel) + CountNamed(r.ocrFields, YobLabel) <= 1
      && (Find(Dob, text).Some? ==> Field(DobLabel, Find(Dob, text).value, 85) in r.ocrFields)
      && (Find(Dob, text).None? && Find(Year, text).Some? ==> Field(YobLabel, Find(Year, text).value, 80) in r.ocrFields)
  {
    var idPart, g, b := AadhaarIdPart(text), GenderField(text), BirthField(text, 85, 80);
    var fields := ParseAadhaar(text).ocrFields;
    AadhaarLayout(text);
    BirthFieldChoice(text, 85, 80);
    assert CountNamed(g, DobLabel) == 0 && CountNamed(g, YobLabel) == 0;
    CountNamedAppend(idPart, g, DobLabel);
    CountNamedAppend(idPart, g, YobLabel);
    CountNamedAppend(idPart + g, b, DobLabel);
    CountNamedAppend(idPart + g, b, YobLabel);
    assert fields == (idPart + g) + b;
    assert |b| == 1 ==> fields[|idPart + g|] == b[0];
  }

  /** The dashed form "1234-5678-9012" is not an Aadhaar number: the pattern allows whitespace only. */
  lemma DashedUidRejected()
    ensures Find(Uid, "1234-5678-9012").None?
  {
    var s := "1234-5678-9012";
    assert s[4] == '-' && s[9] == '-';
    forall i | 0 <= i <= |s| ensures MatchAt(Uid, s, i).None? {
      if i <= 4 {
        NoDigitsAcross(s, if i == 0 then 4 else i, 4);
      } else if i <= 9 {
        NoDigitsAcross(s, if i == 5 then 9 else i, 9);
      }
    }
  }

  /** No run of four digits covers a non-digit. */
  lemma NoDigitsAcross(s: string, i: nat, k: nat)
    requires i <= k < i + 4 && k < |s| && !IsDigit(s[k])
    ensures !DigitsAt(s, i, 4)
  {
    if i + 4 <= |s| {
      AllDigitsAt(s[i..i + 4]);
      assert s[i..i + 4][k - i] == s[k];
    }
  }

  /** Text made of digits and whitespace mentions no gender. */
  lemma NoGenderInDigits(t: string)
    requires forall k :: 0 <= k < |t| ==> IsDigit(t[k]) || t[k] == ' '
    ensures GenderField(t) == []
  {
    ContainsFoldedHasChar(t, "female", 1);
    ContainsFoldedHasChar(t, "male", 1);
  }

  /** Four digits. */
  predicate IsDigitGroup(g: string) {
    |g| == 4 && forall k :: 0 <= k < 4 ==> IsDigit(g[k])
  }

  /** Fourteen characters: digits, with spaces at positions 4 and 9. */
  predicate IsSpacedUid(s: string) {
    |s| == 14 && forall k :: 0 <= k < 14 ==> if k == 4 || k == 9 then s[k] == ' ' else IsDigit(s[k])
  }

  /**
   * Three four-digit groups separated by single spaces, as "1234 5678 9012": the whole text
   * is the Aadhaar number, and since it holds no full date its first group is also emitted
   * as the Year of Birth.
   */
  lemma SpacedUidAccepted(g1: string, g2: string, g3: string)
    requires IsDigitGroup(g1) && IsDigitGroup(g2) && IsDigitGroup(g3)
    ensures var s := g1 + " " + g2 + " " + g3;
      ParseAadhaar(s).ocrFields == [Field(AadhaarLabel, s, 90), Field(YobLabel, g1, 80)]
  {
    var s := g1 + " " + g2 + " " + g3;
    assert |s| == 14;
    assert forall k :: 0 <= k < 4 ==> s[k] == g1[k] && s[5 + k] == g2[k] && s[10 + k] == g3[k];
    assert s[4] == ' ' && s[9] == ' ';
    assert s[..4] == g1;
    SpacedUidFields(s);
  }

  /** The same, for any text laid out as three spaced groups of four digits. */
  lemma SpacedUidFields(s: string)
    requires IsSpacedUid(s)
    ensures ParseAadhaar(s).ocrFields == [Field(AadhaarLabel, s, 90), Field(YobLabel, s[..4], 80)]
  {
    SpacedUid(s);
    SpacedYear(s);
    SpacedNoDate(s);
    assert forall k :: 0 <= k < |s| ==> IsDigit(s[k]) || s[k] == ' ';
    NoGenderInDigits(s);
    AadhaarLayout(s);
  }

  lemma SpacedUid(s: string)
    requires IsSpacedUid(s)
    ensures Find(Uid, s) == Some(s)
  {
    var t := s[0..14];
    assert t == s;
    assert t[..4] == s[0..4] && t[5..9] == s[5..9] && t[10..] == s[10..14];
    AllDigitsAt(s[0..4]);
    AllDigitsAt(s[5..9]);
    AllDigitsAt(s[10..14]);
    assert UidLayout(t, 1, 1);
    assert Boundary(s, 0) && Boundary(s, 14);
    UidTextIsMatch(s, 0, 14, 1, 1);
    assert Search(Uid, s, 0) == Some((0, 14));
  }

  lemma SpacedYear(s: string)
    requires IsSpacedUid(s)
    ensures Find(Year, s) == Some(s[..4])
  {
    AllDigitsAt(s[0..4]);
    assert !IsWordChar(s[4]);
    assert MatchAt(Year, s, 0) == Some(4);
    assert Search(Year, s, 0) == Some((0, 4));
  }

  lemma SpacedNoDate(s: string)
    requires IsSpacedUid(s)
    ensures Find(Dob, s).None?
  {
    forall i | 0 <= i <= |s| ensures MatchAt(Dob, s, i).None? {
      assert i + 10 <= |s| ==> !IsDateSeparator(s[i + 2]);
    }
    assert Search(Dob, s, 0).None?;
  }

  // ---------------------------------------------------------------- PAN

  /**
   * The corrected PAN keeps the fuzzy match's length 10 and its positions 0-4 and 9, and
   * in positions 5-8 replaces every `O` with `0`, leaving only digits there. The `I` -> `1`
   * replacement never applies, since the segment is `[0-9O]`.
   */
  lemma CorrectPanShape(pan: string)
    requires |pan| == 10
    requires forall k :: 5 <= k < 9 ==> IsDigitOrO(pan[k])
    ensures var r := CorrectPan(pan);
      && |r| == 10
      && (forall k :: 0 <= k < 5 || k == 9 ==> r[k] == pan[k])
      && (forall k :: 5 <= k < 9 ==> r[k] == (if pan[k] == 'O' then '0' else pan[k]) && IsDigit(r[k]))
      && r == pan[..5] + ReplaceChar(pan[5..9], 'O', '0') + pan[9..]
  {
    var once := ReplaceChar(pan[5..9], 'O', '0');
    assert ReplaceChar(once, 'I', '1') == once;
  }

  /** The fuzzy match "ABCDE1O09F" is emitted as "ABCDE1009F". */
  lemma PanOcrCorrection()
    ensures PanNumber("ABCDE1O09F") == Some("ABCDE1009F")
  {
    var s := "ABCDE1O09F";
    assert MatchAt(FuzzyPan, s, 0) == Some(10);
    assert Search(FuzzyPan, s, 0) == Some((0, 10));
    assert s[0..10] == s;
    assert Find(FuzzyPan, s) == Some(s);
    assert s[5..9] == "1O09";
    assert ReplaceChar("1O09", 'O', '0') == "1009";
    assert ReplaceChar("1009", 'I', '1') == "1009";
    assert CorrectPan(s) == s[..5] + "1009" + s[9..] == "ABCDE1009F";
  }

  /**
   * With a fuzzy PAN match the first field is "PAN Number" at confidence 92 holding the
   * corrected match, of length 10 with digits in positions 5-8; without one the parser says
   * invalid and records the one reason.
   */
  lemma PanIdField(text: string, lines: seq<string>)
    ensures var r := ParsePan(text, lines);
      && (Find(FuzzyPan, text).Some? ==>
            var raw := Find(FuzzyPan, text).value;
            |raw| == 10 && |r.ocrFields| > 0 &&
            r.ocrFields[0] == Field(PanLabel, CorrectPan(raw), 92) &&
            (forall k :: 5 <= k < 9 ==> IsDigit(CorrectPan(raw)[k])) &&
            r.isValid == Some(true) && r.rejectionReasons == [])
      && (Find(FuzzyPan, text).None? ==>
            r.isValid == Some(false) && r.rejectionReasons == [MissingPan])
  {
    if Find(FuzzyPan, text).Some? {
      var raw := Find(FuzzyPan, text).value;
      FoundPanShape(text);
      CorrectPanShape(raw);
      PanLayout(text, lines);
    }
  }

  /** The fuzzy match is ten characters with `[0-9O]` in positions 5 to 8. */
  lemma FoundPanShape(text: string)
    requires Find(FuzzyPan, text).Some?
    ensures var raw := Find(FuzzyPan, text).value;
      |raw| == 10 && forall k :: 5 <= k < 9 ==> IsDigitOrO(raw[k])
  {
    var (i, j) := Search(FuzzyPan, text, 0).value;
    assert MatchAt(FuzzyPan, text, i) == Some(j);
    PanSlice(text, i, text[i..j]);
  }

  lemma PanSlice(text: string, i: nat, raw: string)
    requires i + 10 <= |text| && raw == text[i..i + 10]
    requires IsDigitOrO(text[i + 5]) && IsDigitOrO(text[i + 6]) && IsDigitOrO(text[i + 7]) && IsDigitOrO(text[i + 8])
    ensures |raw| == 10 && forall k :: 5 <= k < 9 ==> IsDigitOrO(raw[k])
  {
    assert raw[5] == text[i + 5] && raw[6] == text[i + 6] && raw[7] == text[i + 7] && raw[8] == text[i + 8];
  }

  /** The PAN fields are the PAN field, then the birth field, then the name fields. */
  lemma PanLayout(text: string, lines: seq<string>)
    ensures ParsePan(text, lines).ocrFields ==
      (match PanNumber(text) case Some(p) => [Field(PanLabel, p, 92)] case None => []) +
      BirthField(text, 90, 70) + NameFields(lines)
  {
  }

  /** In the PAN result: at most one of DOB (confidence 90) and Year of Birth (confidence 70), DOB preferred. */
  lemma PanBirth(text: string, lines: seq<string>)
    ensures var r := ParsePan(text, lines);
      && CountNamed(r.ocrFields, DobLabel) + CountNamed(r.ocrFields, YobLabel) <= 1
      && (Find(Dob, text).Some? ==> Field(DobLabel, Find(Dob, text).value, 90) in r.ocrFields)
      && (Find(Dob, text).None? && Find(Year, text).Some? ==> Field(YobLabel, Find(Year, text).value, 70) in r.ocrFields)
  {
    var idPart := match PanNumber(text) case Some(p) => [Field(PanLabel, p, 92)] case None => [];
    var b := BirthField(text, 90, 70);
    var names := NameFields(lines);
    PanLayout(text, lines);
    BirthFieldChoice(text, 90, 70);
    assert CountNamed(idPart, DobLabel) == 0 && CountNamed(idPart, YobLabel) == 0;
    NameFieldsNoBirth(lines, DobLabel);
    NameFieldsNoBirth(lines, YobLabel);
    CountNamedAppend(idPart, b, DobLabel);
    CountNamedAppend(idPart, b, YobLabel);
    CountNamedAppend(idPart + b, names, DobLabel);
    CountNamedAppend(idPart + b, names, YobLabel);
    if |b| == 1 {
      InMiddle(idPart, b, names);
    }
  }

  /** The name heuristic emits only Father's Name and Name fields. */
  lemma NameFieldsNoBirth(lines: seq<string>, tag: string)
    requires tag != FatherLabel && tag != NameLabel
    ensures CountNamed(NameFields(lines), tag) == 0
  {
    var a := NameAnchor(lines);
    if a > 1 {
      var father, name := lines[a - 1], lines[a - 2];
      var f := if |father| > 3 && !ContainsAnyFolded(father, FatherBlacklist)
               then [Field(FatherLabel, father, 75)] else [];
      var n := if |name| > 3 && !ContainsAnyFolded(name, NameBlacklist)
               then [Field(NameLabel, name, 75)] else [];
      assert NameFields(lines) == f + n;
      CountNamedAppend(f, n, tag);
    }
  }

  /** The one field of the middle part is in the whole. */
  lemma InMiddle(a: seq<OcrField>, b: seq<OcrField>, c: seq<OcrField>)
    requires |b| == 1
    ensures b[0] in a + b + c
  {
    assert (a + b + c)[|a|] == b[0];
  }

  /**
   * The positional rule: the anchor is the first DOB line, or else the first PAN line; when
   * it is beyond line 1, the line above it is emitted as Father's Name and the one above that
   * as Name, both at confidence 75, each unless it is 3 characters or shorter or holds a word
   * of its own blacklist; nothing else is emitted.
   */
  lemma PositionalNames(lines: seq<string>)
    requires NameAnchor(lines) > 1
    ensures var a := NameAnchor(lines);
      var r := NameFields(lines);
      var father := lines[a - 1];
      var name := lines[a - 2];
      var keepFather := |father| > 3 && !ContainsAnyFolded(father, FatherBlacklist);
      var keepName := |name| > 3 && !ContainsAnyFolded(name, NameBlacklist);
      && a < |lines|
      && (a == FirstLineIndex(Dob, lines) || (FirstLineIndex(Dob, lines) == -1 && a == FirstLineIndex(FuzzyPan, lines)))
      && |r| == (if keepFather then 1 else 0) + (if keepName then 1 else 0)
      && (keepFather ==> r[0] == Field(FatherLabel, father, 75))
      && (keepName ==> r[|r| - 1] == Field(NameLabel, name, 75))
  {
  }

  /**
   * The fallback: with the anchor at line 1 or before (or absent), at most one Name field,
   * at confidence 60, and it is the first line of capitals, whitespace and full stops longer
   * than 3 characters holding no blacklisted word.
   */
  lemma FallbackName(lines: seq<string>)
    requires NameAnchor(lines) <= 1
    ensures var r := NameFields(lines);
      && |r| <= 1
      && (|r| == 1 <==> exists k :: 0 <= k < |lines| && IsFallbackName(lines[k]))
      && (|r| == 1 ==> exists k :: (0 <= k < |lines| && IsFallbackName(lines[k]) &&
            (forall j :: 0 <= j < k ==> !IsFallbackName(lines[j])) && r[0] == Field(NameLabel, lines[k], 60)))
  {
    var r := NameFields(lines);
    match FirstFallbackName(lines)
    case Some(k) =>
    case None =>
  }

  /** A date `dd/mm/yyyy` starts with a digit. */
  lemma DobHasDigit(l: string)
    ensures Test(Dob, l) ==> exists k :: 0 <= k < |l| && IsDigit(l[k])
  {
    if Test(Dob, l) {
      var (i, _) := Search(Dob, l, 0).value;
      assert IsDigit(l[i..i + 2][0]);
    }
  }

  /** No character of `t` equals `c` up to case. */
  predicate Lacks(t: string, c: char) {
    forall k :: 0 <= k < |t| ==> Fold(t[k]) != Fold(c)
  }

  /**
   * A line that lacks, for every word of a list, one of that word's characters (the
   * `letters[i]`-th of word `i`) holds none of the words.
   */
  lemma {:induction false} NoWordContained(t: string, words: seq<string>, letters: seq<nat>)
    requires |letters| == |words|
    requires forall i :: 0 <= i < |words| ==> letters[i] < |words[i]| && Lacks(t, words[i][letters[i]])
    ensures !ContainsAnyFolded(t, words)
  {
    if |words| > 0 {
      ContainsFoldedHasChar(t, words[0], letters[0]);
      NoWordContained(t, words[1..], letters[1..]);
    }
  }

  lemma FatherNameKept()
    ensures !ContainsAnyFolded("ROBERT SMITH", FatherBlacklist)
  {
    var t := "ROBERT SMITH";
    var cs := "paucgn";
    forall k | 0 <= k < |t| ensures Fold(t[k]) !in cs { }
    LacksOf(t, cs, 'p');
    LacksOf(t, cs, 'a');
    LacksOf(t, cs, 'u');
    LacksOf(t, cs, 'c');
    LacksOf(t, cs, 'g');
    LacksOf(t, cs, 'n');
    NoWordContained(t, FatherBlacklist, [0, 0, 1, 0, 0, 1, 2, 1, 1]);
  }

  lemma NameKept()
    ensures !ContainsAnyFolded("JOHN SMITH", NameBlacklist)
  {
    var t := "JOHN SMITH";
    var cs := "cawgdpu";
    forall k | 0 <= k < |t| ensures Fold(t[k]) !in cs { }
    LacksOf(t, cs, 'c');
    LacksOf(t, cs, 'a');
    LacksOf(t, cs, 'w');
    LacksOf(t, cs, 'g');
    LacksOf(t, cs, 'd');
    LacksOf(t, cs, 'p');
    LacksOf(t, cs, 'u');
    NoWordContained(t, NameBlacklist, [2, 1, 0, 0, 2, 0, 0, 1, 0]);
  }

  /** A line none of whose folded characters is in `cs` lacks every character of `cs`. */
  lemma LacksOf(t: string, cs: string, c: char)
    requires forall k :: 0 <= k < |t| ==> Fold(t[k]) !in cs
    requires Fold(c) in cs
    ensures Lacks(t, c)
  {
  }

  /** The line holds no digit. */
  predicate DigitFree(l: string) {
    forall k :: 0 <= k < |l| ==> !IsDigit(l[k])
  }

  /** A line without digits holds no `dd/mm/yyyy` date. */
  lemma NoDobWithoutDigits(l: string)
    requires DigitFree(l)
    ensures !Test(Dob, l)
  {
    DobHasDigit(l);
  }

  /**
   * The card layout header / name / father's name / date / PAN: when only the fourth line
   * holds digits, the anchor is that date line, and the two lines above it are emitted as
   * Father's Name and Name whenever they pass their length and blacklist tests.
   */
  lemma CardLayoutNames(header: string, name: string, father: string, date: string, pan: string)
    requires DigitFree(header) && DigitFree(name) && DigitFree(father)
    requires Test(Dob, date)
    requires |father| > 3 && !ContainsAnyFolded(father, FatherBlacklist)
    requires |name| > 3 && !ContainsAnyFolded(name, NameBlacklist)
    ensures NameFields([header, name, father, date, pan]) == [Field(FatherLabel, father, 75), Field(NameLabel, name, 75)]
  {
    var lines := [header, name, father, date, pan];
    NoDobWithoutDigits(header);
    NoDobWithoutDigits(name);
    NoDobWithoutDigits(father);
    assert FirstLineIndex(Dob, lines) == 3 by {
      assert lines[1..][1..][1..][0] == date;
    }
  }

  /** The sample PAN card: "ROBERT SMITH" is the Father's Name and "JOHN SMITH" the Name. */
  lemma SampleCardNames()
    ensures NameFields(["INCOME TAX DEPARTMENT", "JOHN SMITH", "ROBERT SMITH", "01/01/1990", "ABCDE1234F"])
      == [Field(FatherLabel, "ROBERT SMITH", 75), Field(NameLabel, "JOHN SMITH", 75)]
  {
    SampleLinesDigitFree();
    SampleDateFound();
    FatherNameKept();
    NameKept();
    CardLayoutNames("INCOME TAX DEPARTMENT", "JOHN SMITH", "ROBERT SMITH", "01/01/1990", "ABCDE1234F");
  }

  /** The header, name and father's name lines of the sample card hold no digit. */
  lemma SampleLinesDigitFree()
    ensures DigitFree("INCOME TAX DEPARTMENT") && DigitFree("JOHN SMITH") && DigitFree("ROBERT SMITH")
  {
    var header, name, father := "INCOME TAX DEPARTMENT", "JOHN SMITH", "ROBERT SMITH";
    forall k | 0 <= k < |header| ensures !IsDigit(header[k]) { }
    forall k | 0 <= k < |name| ensures !IsDigit(name[k]) { }
    forall k | 0 <= k < |father| ensures !IsDigit(father[k]) { }
  }

  /** The sample card's date line matches the date pattern at its start. */
  lemma SampleDateFound()
    ensures Test(Dob, "01/01/1990")
  {
    var s := "01/01/1990";
    assert s[..2] == "01" && s[3..5] == "01" && s[6..10] == "1990";
    assert AllDigits("01") && AllDigits("1990");
    assert MatchAt(Dob, s, 0).Some?;
  }
}
