/**
 * The structured field extractor of the backend (`parseKYCData` and its two per-document
 * parsers): recognized text plus a document-type tag in, a `ValidationResult` out.
 *
 * The parsers build their result by appending to `ocrFields` and `rejectionReasons`; each
 * append is a step of a `var ... :=` chain below, in the order the source performs it.
 */
module OcrService {
  import opened Wrappers
  import opened Text
  import opened Patterns

  /** One extracted field; `name` is the source's `label` (a reserved word in Dafny). `expected` and `mismatch` belong to a comparator this core never runs. */
  datatype OcrField = OcrField(name: string, extracted: string, expected: Option<string>, confidence: int, mismatch: bool)

  datatype ValidationResult = ValidationResult(
    isValid: bool,
    clarityScore: int,
    ocrFields: seq<OcrField>,
    fraudFlags: seq<string>,
    rejectionReasons: seq<string>)

  /**
   * What a document-type parser hands back to the merge. The default path hands back the
   * empty object `{}`, whose `isValid` is `undefined`: `isValid == None` here.
   */
  datatype ParserResult = ParserResult(isValid: Option<bool>, ocrFields: seq<OcrField>, rejectionReasons: seq<string>)

  /** A field as every parser emits it: no expected value, no mismatch. */
  function Field(name: string, extracted: string, confidence: int): OcrField {
    OcrField(name, extracted, None, confidence, false)
  }

  const AadhaarTag := "aadhaar-card"
  const PanTag := "pan-card"

  const AadhaarLabel := "Aadhaar Number"
  const PanLabel := "PAN Number"
  const DocumentNumberLabel := "Document Number"
  const DobLabel := "DOB"
  const YobLabel := "Year of Birth"
  const GenderLabel := "Gender"
  const FatherLabel := "Father's Name"
  const NameLabel := "Name"

  const MissingAadhaar := "Could not find 12-digit Aadhaar number."
  const MissingPan := "Could not find valid PAN number."
  const NoData := "No recognizable data found."

  /** Words that disqualify the line above the anchor as a father's name. */
  const FatherBlacklist := ["Permanent", "Account", "Number", "Card", "Govt", "India", "Signature", "Income", "Tax"]
  /** Words that disqualify the line two above the anchor as a name. */
  const NameBlacklist := ["INCOME", "TAX", "Who", "Govt", "India", "Permanent", "Account", "Number", "Card"]
  /** Words that disqualify a line as the fallback name. */
  const FallbackBlacklist := ["INCOME", "TAX", "INDIA", "GOVT", "ACCOUNT", "NUMBER", "CARD", "Permanent"]

  // ---------------------------------------------------------------- preprocessing

  /** A line as preprocessing leaves it: non-empty, trimmed, no line feed inside. */
  predicate IsCleanLine(l: string) {
    |l| > 0 && Trim(l) == l && '\n' !in l
  }

  /** `.map(l => l.trim()).filter(l => l.length > 0)`. */
  function NonEmptyTrimmed(pieces: seq<string>): (r: seq<string>)
    requires forall k :: 0 <= k < |pieces| ==> '\n' !in pieces[k]
    ensures |r| <= |pieces|
    ensures forall k :: 0 <= k < |r| ==> IsCleanLine(r[k])
  {
    if |pieces| == 0 then []
    else
      var t := Trim(pieces[0]);
      TrimIdempotent(pieces[0]);
      TrimKeeps(pieces[0], '\n');
      assert forall k :: 0 <= k < |pieces[1..]| ==> pieces[1..][k] == pieces[k + 1];
      var head := if |t| > 0 then [t] else [];
      assert forall k :: 0 <= k < |head| ==> IsCleanLine(head[k]);
      head + NonEmptyTrimmed(pieces[1..])
  }

  /** The lines `parseKYCData` works on: the non-empty trimmed pieces of `text.split("\n")`, in order. */
  function Lines(text: string): (r: seq<string>)
    ensures forall k :: 0 <= k < |r| ==> IsCleanLine(r[k])
  {
    NonEmptyTrimmed(SplitLines(text))
  }

  /** Preprocessing gives back exactly the lines of a text made of clean lines joined by line feeds. */
  lemma LinesOfJoinedLines(ls: seq<string>)
    requires |ls| >= 1
    requires forall k :: 0 <= k < |ls| ==> IsCleanLine(ls[k])
    ensures Lines(JoinLines(ls)) == ls
  {
    SplitJoin(ls);
    NonEmptyTrimmedOfClean(ls);
  }

  lemma {:induction false} NonEmptyTrimmedOfClean(ls: seq<string>)
    requires forall k :: 0 <= k < |ls| ==> IsCleanLine(ls[k])
    ensures forall k :: 0 <= k < |ls| ==> '\n' !in ls[k]
    ensures NonEmptyTrimmed(ls) == ls
  {
    if |ls| > 0 {
      NonEmptyTrimmedOfClean(ls[1..]);
    }
  }

  // ---------------------------------------------------------------- shared field finders

  /** `/female/i` is tested before `/male/i`: at most one Gender field. */
  function GenderField(text: string): seq<OcrField> {
    if ContainsFolded(text, "female") then [Field(GenderLabel, "Female", 85)]
    else if ContainsFolded(text, "male") then [Field(GenderLabel, "Male", 85)]
    else []
  }

  /** A full `dd/mm/yyyy` date when there is one, else the first standalone four-digit run. */
  function BirthField(text: string, dobConfidence: int, yobConfidence: int): seq<OcrField> {
    match Find(Dob, text)
    case Some(d) => [Field(DobLabel, d, dobConfidence)]
    case None =>
      match Find(Year, text)
      case Some(y) => [Field(YobLabel, y, yobConfidence)]
      case None => []
  }

  // ---------------------------------------------------------------- Aadhaar

  /** `parseAadhaarData`: 12-digit UID, then gender, then date or year of birth. */
  function ParseAadhaar(text: string): ParserResult {
    var result := ParserResult(Some(true), [], []);
    var result :=
      match Find(Uid, text)
      case Some(uid) => result.(ocrFields := result.ocrFields + [Field(AadhaarLabel, uid, 90)])
      case None => result.(isValid := Some(false), rejectionReasons := result.rejectionReasons + [MissingAadhaar]);
    var result := result.(ocrFields := result.ocrFields + GenderField(text));
    result.(ocrFields := result.ocrFields + BirthField(text, 85, 80))
  }

  // ---------------------------------------------------------------- PAN

  /** `s.replace(/from/g, to)` for a single character. */
  function ReplaceChar(s: string, from: char, to: char): (r: string)
    ensures |r| == |s|
    ensures forall k :: 0 <= k < |s| ==> r[k] == if s[k] == from then to else s[k]
  {
    seq(|s|, k requires 0 <= k < |s| => if s[k] == from then to else s[k])
  }

  /** The OCR correction of a fuzzy PAN match: `O` -> `0` and then `I` -> `1` in characters 5 to 8. */
  function CorrectPan(pan: string): string
    requires |pan| == 10
  {
    var numericPart := pan[5..9];
    var corrected := ReplaceChar(ReplaceChar(numericPart, 'O', '0'), 'I', '1');
    pan[..5] + corrected + pan[9..]
  }

  /** The PAN number emitted for the text, if the fuzzy pattern matches. */
  function PanNumber(text: string): (r: Option<string>)
    ensures r.Some? <==> Find(FuzzyPan, text).Some?
  {
    match Find(FuzzyPan, text)
    case Some(raw) => PanMatchLength(text); Some(CorrectPan(raw))
    case None => None
  }

  lemma PanMatchLength(text: string)
    requires Find(FuzzyPan, text).Some?
    ensures |Find(FuzzyPan, text).value| == 10
  {
  }

  /** `lines.findIndex(l => p.test(l))`: the first line where `p` matches, or -1. */
  function FirstLineIndex(p: Pattern, lines: seq<string>): (r: int)
    ensures -1 <= r < |lines|
    ensures r >= 0 ==> Test(p, lines[r]) && forall k :: 0 <= k < r ==> !Test(p, lines[k])
    ensures r == -1 ==> forall k :: 0 <= k < |lines| ==> !Test(p, lines[k])
  {
    if |lines| == 0 then -1
    else if Test(p, lines[0]) then 0
    else
      var r := FirstLineIndex(p, lines[1..]);
      if r == -1 then -1 else r + 1
  }

  /** `/^[A-Z\s\.]+$/`: non-empty, only capitals, whitespace and full stops. */
  predicate IsCapitalsLine(l: string) {
    |l| > 0 && forall k :: 0 <= k < |l| ==> IsUpper(l[k]) || IsSpace(l[k]) || l[k] == '.'
  }

  /** The predicate of the fallback `lines.find`. */
  predicate IsFallbackName(l: string) {
    IsCapitalsLine(l) && !ContainsAnyFolded(l, FallbackBlacklist) && |l| > 3
  }

  /** `lines.find(IsFallbackName)`. */
  function FirstFallbackName(lines: seq<string>): (r: Option<nat>)
    ensures r.Some? ==> r.value < |lines| && IsFallbackName(lines[r.value])
    ensures r.Some? ==> forall k :: 0 <= k < r.value ==> !IsFallbackName(lines[k])
    ensures r.None? ==> forall k :: 0 <= k < |lines| ==> !IsFallbackName(lines[k])
  {
    if |lines| == 0 then None
    else if IsFallbackName(lines[0]) then Some(0)
    else match FirstFallbackName(lines[1..])
      case Some(k) => Some(k + 1)
      case None => None
  }

  /** The line the name heuristic counts back from: the first DOB line, or else the first PAN line (-1 if neither). */
  function NameAnchor(lines: seq<string>): (r: int)
    ensures -1 <= r < |lines|
  {
    var dobIndex := FirstLineIndex(Dob, lines);
    var panIndex := FirstLineIndex(FuzzyPan, lines);
    if dobIndex != -1 then dobIndex else panIndex
  }

  /** The positional Name / Father's-Name heuristic, with its fallback. */
  function NameFields(lines: seq<string>): seq<OcrField> {
    var anchorIndex := NameAnchor(lines);
    if anchorIndex > 1 then
      var fathersName := lines[anchorIndex - 1];
      var name := lines[anchorIndex - 2];
      (if |fathersName| > 3 && !ContainsAnyFolded(fathersName, FatherBlacklist)
       then [Field(FatherLabel, fathersName, 75)] else []) +
      (if |name| > 3 && !ContainsAnyFolded(name, NameBlacklist)
       then [Field(NameLabel, name, 75)] else [])
    else
      match FirstFallbackName(lines)
      case Some(k) => [Field(NameLabel, lines[k], 60)]
      case None => []
  }

  /** `parsePANData`: fuzzy PAN, then date or year of birth, then the name heuristic. */
  function ParsePan(text: string, lines: seq<string>): ParserResult {
    var result := ParserResult(Some(true), [], []);
    var result :=
      match PanNumber(text)
      case Some(pan) => result.(ocrFields := result.ocrFields + [Field(PanLabel, pan, 92)])
      case None => result.(isValid := Some(false), rejectionReasons := result.rejectionReasons + [MissingPan]);
    var result := result.(ocrFields := result.ocrFields + BirthField(text, 90, 70));
    result.(ocrFields := result.ocrFields + NameFields(lines))
  }

  // ---------------------------------------------------------------- default

  /** `.filter(id => !id.match(/\d{1,2}[\/\-]\d{1,2}/))`. */
  function DropDateLike(ids: seq<string>): (r: seq<string>)
    ensures |r| <= |ids|
  {
    if |ids| == 0 then []
    else (if Test(DateFragment, ids[0]) then [] else [ids[0]]) + DropDateLike(ids[1..])
  }

  /** The default path's document number: the leftmost `[A-Z0-9]{6,12}` token, if it survives the date filter. */
  function DefaultDocumentNumber(text: string): Option<string> {
    var ids := DropDateLike(match Find(IdToken, text) case Some(id) => [id] case None => []);
    if |ids| > 0 then Some(ids[0]) else None
  }

  /** The fields the default path pushes onto the base result. */
  function DefaultFields(text: string): seq<OcrField> {
    match DefaultDocumentNumber(text)
    case Some(id) => [Field(DocumentNumberLabel, id, 80)]
    case None => []
  }

  // ---------------------------------------------------------------- merge

  /** The result every request starts from. */
  const BaseResult := ValidationResult(true, 85, [], [], [])

  /** The spread merge: the parser's `isValid` when it defines one, fields and reasons concatenated in order. */
  function Merge(base: ValidationResult, specific: ParserResult): ValidationResult {
    base.(isValid := specific.isValid.GetOr(base.isValid),
          ocrFields := base.ocrFields + specific.ocrFields,
          rejectionReasons := base.rejectionReasons + specific.rejectionReasons)
  }

  /** The overall validity check: no fields at all means invalid, with one generic reason appended. */
  function RequireData(r: ValidationResult): ValidationResult {
    if |r.ocrFields| == 0 then r.(isValid := false, rejectionReasons := r.rejectionReasons + [NoData]) else r
  }

  /** `parseKYCData`. */
  function ParseKyc(text: string, documentType: string): ValidationResult {
    var lines := Lines(text);
    var baseResult := BaseResult;
    var (specificResult, baseResult) :=
      if documentType == AadhaarTag then (ParseAadhaar(text), baseResult)
      else if documentType == PanTag then (ParsePan(text, lines), baseResult)
      else (ParserResult(None, [], []), baseResult.(ocrFields := baseResult.ocrFields + DefaultFields(text)));
    RequireData(Merge(baseResult, specificResult))
  }
}
