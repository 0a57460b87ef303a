/**
 * The pure rules of components/TalentForm.tsx: `validateField` for the name,
 * the height, the rating and the photo count; the error map that the submit
 * handler builds from them; and the tag text, shown joined by ", " and read
 * back by splitting on ",", trimming, and dropping empty pieces.
 */
module TalentValidation {
  import opened Wrappers
  import Text
  import Lists

  // ---------------------------------------------------------------------------
  // Form fields and the keys of the `errors` and `touched` records

  /** The keys of `formData`, in the order `Object.keys` lists them. */
  datatype Field = Nombre | Genero | Altura | Experiencia | Especialidad | Descripcion | Tags | Rating

  const FormFields: seq<Field> :=
    [Nombre, Genero, Altura, Experiencia, Especialidad, Descripcion, Tags, Rating]

  /** A key of `errors` or `touched`: a form field, or "files" for the photos. */
  datatype Slot = Input(field: Field) | Photos

  /** Every key of `errors` and `touched`. */
  const AllSlots: set<Slot> :=
    {Input(Nombre), Input(Genero), Input(Altura), Input(Experiencia), Input(Especialidad),
     Input(Descripcion), Input(Tags), Input(Rating), Photos}

  /** The text fields of the form, all held as the strings the inputs show. */
  datatype FormData = FormData(
    nombre: string,
    genero: string,
    altura: string,
    experiencia: string,
    especialidad: string,
    descripcion: string,
    tags: string,
    rating: string)
  {
    function Get(f: Field): string {
      match f
      case Nombre => nombre
      case Genero => genero
      case Altura => altura
      case Experiencia => experiencia
      case Especialidad => especialidad
      case Descripcion => descripcion
      case Tags => tags
      case Rating => rating
    }

    function Set(f: Field, v: string): (d: FormData)
      ensures d.Get(f) == v
      ensures forall g: Field | g != f :: d.Get(g) == Get(g)
    {
      match f
      case Nombre => this.(nombre := v)
      case Genero => this.(genero := v)
      case Altura => this.(altura := v)
      case Experiencia => this.(experiencia := v)
      case Especialidad => this.(especialidad := v)
      case Descripcion => this.(descripcion := v)
      case Tags => this.(tags := v)
      case Rating => this.(rating := v)
    }
  }

  const NameMessage: string := "El nombre debe tener al menos 3 caracteres"
  const HeightMessage: string := "Formato inv\U{E1}lido (ej: 1.75m o 175cm)"
  const PhotosMessage: string := "Debes agregar al menos una foto"
  const RatingMessage: string := "El rating debe ser entre 0 y 5"

  // ---------------------------------------------------------------------------
  // Name

  /** `!value || value.trim().length < 3`. */
  predicate NameRejected(v: string) {
    v == "" || Text.Utf16Length(Text.Trim(v)) < 3
  }

  /** Whitespace around a name never matters: what decides is the length, in
      UTF-16 code units, of the name from its first to its last non-space
      character (inner spaces count). */
  lemma NameRule(pre: string, core: string, post: string)
    requires Text.AllSpace(pre) && Text.AllSpace(post) && Text.IsTrimmed(core)
    ensures NameRejected(pre + core + post) <==> Text.Utf16Length(core) < 3
  {
    Text.TrimOfPadded(pre, core, post);
  }

  /** `.length` counts UTF-16 code units: two emoji make a name of length
      four, so it passes the rule. */
  lemma TwoEmojiNameAccepted()
    ensures !NameRejected("\U{1F600}\U{1F600}")
  {
    var v := "\U{1F600}\U{1F600}";
    NameRule("", v, "");
    assert "" + v + "" == v;
    EmojiPairLength();
  }

  lemma EmojiPairLength()
    ensures Text.Utf16Length("\U{1F600}\U{1F600}") == 4
  {
    var v := "\U{1F600}\U{1F600}";
    assert v[1..] == "\U{1F600}";
    assert v[1..][1..] == "";
  }

  /** Blanks around a two-letter name do not make it long enough. */
  lemma PaddedShortNameRejected()
    ensures NameRejected(" Al ")
  {
    NameRule(" ", "Al", " ");
    assert " " + "Al" + " " == " Al ";
  }

  // ---------------------------------------------------------------------------
  // Height: /^\d+(\.\d+)?\s*(m|cm)?$/i on the trimmed value

  /** `(m|cm)?` under the `i` flag. */
  predicate IsUnit(u: string) {
    || u == ""
    || (|u| == 1 && (u[0] == 'm' || u[0] == 'M'))
    || (|u| == 2 && (u[0] == 'c' || u[0] == 'C') && (u[1] == 'm' || u[1] == 'M'))
  }

  /** The language of the height pattern, piece by piece: digits, an optional
      fraction ("." and digits), whitespace, an optional unit. */
  predicate HeightShape(whole: string, frac: string, gap: string, unit: string) {
    && |whole| > 0 && Text.AllDigits(whole)
    && (frac == [] || (|frac| >= 2 && frac[0] == '.' && Text.AllDigits(frac[1..])))
    && Text.AllSpace(gap)
    && IsUnit(unit)
  }

  /** The end of the run of digits that starts at `i`. */
  function DigitsEnd(s: string, i: nat): (j: nat)
    requires i <= |s|
    ensures i <= j <= |s|
    decreases |s| - i
  {
    if i < |s| && Text.IsDigit(s[i]) then DigitsEnd(s, i + 1) else i
  }

  /** The end of the run of whitespace that starts at `i`. */
  function SpacesEnd(s: string, i: nat): (j: nat)
    requires i <= |s|
    ensures i <= j <= |s|
    decreases |s| - i
  {
    if i < |s| && Text.IsSpace(s[i]) then SpacesEnd(s, i + 1) else i
  }

  /** `DigitsEnd` stops at the first non-digit: what it skips is all digits. */
  lemma {:induction false} DigitsEndStops(s: string, i: nat)
    requires i <= |s|
    ensures var j := DigitsEnd(s, i);
      Text.AllDigits(s[i..j]) && (j < |s| ==> !Text.IsDigit(s[j]))
    decreases |s| - i
  {
    if i < |s| && Text.IsDigit(s[i]) {
      DigitsEndStops(s, i + 1);
    }
  }

  /** `SpacesEnd` stops at the first non-space: what it skips is all spaces. */
  lemma {:induction false} SpacesEndStops(s: string, i: nat)
    requires i <= |s|
    ensures var j := SpacesEnd(s, i);
      Text.AllSpace(s[i..j]) && (j < |s| ==> !Text.IsSpace(s[j]))
    decreases |s| - i
  {
    if i < |s| && Text.IsSpace(s[i]) {
      SpacesEndStops(s, i + 1);
    }
  }

  /** The end of the optional fraction that starts at `i`: "." followed by
      at least one digit, or nothing. */
  function FractionEnd(s: string, i: nat): (j: nat)
    requires i <= |s|
    ensures i <= j <= |s|
  {
    if i + 1 < |s| && s[i] == '.' && Text.IsDigit(s[i + 1]) then DigitsEnd(s, i + 1) else i
  }

  /** A left-to-right scan that decides the height pattern. Each repeated
      part is taken greedily, which the pattern allows because the
      character that ends one part can never continue it. */
  predicate IsHeight(s: string) {
    var a := DigitsEnd(s, 0);
    var b := FractionEnd(s, a);
    var c := SpacesEnd(s, b);
    a > 0 && IsUnit(s[c..])
  }

  /** A run of digits followed by a non-digit (or the end) is what
      `DigitsEnd` finds. */
  lemma {:induction false} DigitsEndAt(s: string, i: nat, j: nat)
    requires i <= j <= |s| && Text.AllDigits(s[i..j])
    requires j < |s| ==> !Text.IsDigit(s[j])
    ensures DigitsEnd(s, i) == j
    decreases j - i
  {
    if i < j {
      assert s[i] == s[i..j][0];
      assert s[i + 1..j] == s[i..j][1..];
      DigitsEndAt(s, i + 1, j);
    }
  }

  lemma {:induction false} SpacesEndAt(s: string, i: nat, j: nat)
    requires i <= j <= |s| && Text.AllSpace(s[i..j])
    requires j < |s| ==> !Text.IsSpace(s[j])
    ensures SpacesEnd(s, i) == j
    decreases j - i
  {
    if i < j {
      assert s[i] == s[i..j][0];
      assert s[i + 1..j] == s[i..j][1..];
      SpacesEndAt(s, i + 1, j);
    }
  }

  /** Every string the scan accepts is in the pattern's language, cut into
      the pieces the scan found. */
  function HeightPieces(s: string): (p: (string, string, string, string))
    requires IsHeight(s)
    ensures HeightShape(p.0, p.1, p.2, p.3)
    ensures s == p.0 + p.1 + p.2 + p.3
  {
    var a := DigitsEnd(s, 0);
    var b := FractionEnd(s, a);
    var c := SpacesEnd(s, b);
    DigitsEndStops(s, 0);
    SpacesEndStops(s, b);
    FractionPiece(s, a);
    Lists.SplitInFour(s, a, b, c);
    (s[..a], s[a..b], s[b..c], s[c..])
  }

  lemma FractionPiece(s: string, a: nat)
    requires a <= |s|
    ensures var b := FractionEnd(s, a);
      s[a..b] == [] || (|s[a..b]| >= 2 && s[a..b][0] == '.' && Text.AllDigits(s[a..b][1..]))
  {
    var b := FractionEnd(s, a);
    if b > a {
      DigitsEndStops(s, a + 1);
      assert s[a..b][1..] == s[a + 1..b];
    }
  }

  /** A run of digits between two strings ends where the next piece starts,
      when that piece does not start with a digit. */
  lemma DigitsEndOver(p: string, run: string, rest: string)
    requires Text.AllDigits(run) && (rest == [] || !Text.IsDigit(rest[0]))
    ensures DigitsEnd(p + run + rest, |p|) == |p| + |run|
  {
    var s := p + run + rest;
    assert s[|p|..|p| + |run|] == run;
    if rest != [] {
      assert s[|p| + |run|] == rest[0];
    }
    DigitsEndAt(s, |p|, |p| + |run|);
  }

  lemma SpacesEndOver(p: string, run: string, rest: string)
    requires Text.AllSpace(run) && (rest == [] || !Text.IsSpace(rest[0]))
    ensures SpacesEnd(p + run + rest, |p|) == |p| + |run|
  {
    var s := p + run + rest;
    assert s[|p|..|p| + |run|] == run;
    if rest != [] {
      assert s[|p| + |run|] == rest[0];
    }
    SpacesEndAt(s, |p|, |p| + |run|);
  }

  /** What follows the integer part starts with '.', whitespace or a unit
      letter, or is empty. */
  lemma AfterWhole(frac: string, gap: string, unit: string)
    requires HeightShape("0", frac, gap, unit)
    ensures var rest := frac + gap + unit;
      rest == [] || (!Text.IsDigit(rest[0]) && (frac == [] ==> rest[0] != '.'))
  {
    var rest := frac + gap + unit;
    if frac != [] {
      assert rest[0] == frac[0];
    } else if gap != [] {
      assert rest[0] == gap[0];
    } else if unit != [] {
      assert rest[0] == unit[0];
    } else {
      assert rest == [];
    }
  }

  lemma UnitStart(unit: string)
    requires IsUnit(unit)
    ensures unit == [] || (!Text.IsSpace(unit[0]) && !Text.IsDigit(unit[0]) && unit[0] != '.')
  {
  }

  /** The scan's first step stops at the end of the integer part. */
  lemma WholeStep(whole: string, frac: string, gap: string, unit: string)
    requires HeightShape(whole, frac, gap, unit)
    ensures DigitsEnd(whole + frac + gap + unit, 0) == |whole|
  {
    AfterWhole(frac, gap, unit);
    assert whole + frac + gap + unit == [] + whole + (frac + gap + unit);
    DigitsEndOver([], whole, frac + gap + unit);
  }

  /** The scan's second step stops at the end of the fraction. */
  lemma FractionStep(whole: string, frac: string, gap: string, unit: string)
    requires HeightShape(whole, frac, gap, unit)
    ensures FractionEnd(whole + frac + gap + unit, |whole|) == |whole| + |frac|
  {
    var s := whole + frac + gap + unit;
    var a := |whole|;
    if frac != [] {
      AfterWhole("", gap, unit);
      assert "" + gap + unit == gap + unit;
      assert s == (whole + ".") + frac[1..] + (gap + unit);
      DigitsEndOver(whole + ".", frac[1..], gap + unit);
      assert s[a] == '.' && s[a + 1] == frac[1];
    } else if a < |s| {
      AfterWhole(frac, gap, unit);
      assert s[a] == (frac + gap + unit)[0];
    }
  }

  /** The scan's third step stops where the unit starts. */
  lemma GapStep(whole: string, frac: string, gap: string, unit: string)
    requires HeightShape(whole, frac, gap, unit)
    ensures SpacesEnd(whole + frac + gap + unit, |whole| + |frac|) == |whole| + |frac| + |gap|
  {
    UnitStart(unit);
    SpacesEndOver(whole + frac, gap, unit);
  }

  /** Every string of the pattern's language passes the scan. */
  lemma HeightPiecesAccepted(whole: string, frac: string, gap: string, unit: string)
    requires HeightShape(whole, frac, gap, unit)
    ensures IsHeight(whole + frac + gap + unit)
  {
    var s := whole + frac + gap + unit;
    WholeStep(whole, frac, gap, unit);
    FractionStep(whole, frac, gap, unit);
    GapStep(whole, frac, gap, unit);
    assert s[|whole| + |frac| + |gap|..] == unit;
  }

  /** The height check: an empty value passes; anything else must match the
      pattern once trimmed. */
  predicate HeightRejected(v: string) {
    v != "" && !IsHeight(Text.Trim(v))
  }

  lemma TrimmedAsIs(s: string)
    requires Text.IsTrimmed(s)
    ensures Text.Trim(s) == s
  {
    Text.TrimOfPadded("", s, "");
    assert "" + s + "" == s;
  }

  lemma ScanAccepts(s: string, whole: string, frac: string, gap: string, unit: string)
    requires Text.IsTrimmed(s) && s == whole + frac + gap + unit
    requires HeightShape(whole, frac, gap, unit)
    ensures !HeightRejected(s)
  {
    TrimmedAsIs(s);
    HeightPiecesAccepted(whole, frac, gap, unit);
  }

  /** The examples of the field's hint and placeholder pass. */
  lemma MetresAccepted()
    ensures !HeightRejected("1.75m")
  {
    ScanAccepts("1.75m", "1", ".75", "", "m");
  }

  lemma CentimetresAccepted()
    ensures !HeightRejected("175cm")
  {
    ScanAccepts("175cm", "175", "", "", "cm");
  }

  /** The unit may follow a space and is read in either case. */
  lemma SpacedUpperUnitAccepted()
    ensures !HeightRejected("175 CM")
  {
    ScanAccepts("175 CM", "175", "", " ", "CM");
  }

  lemma PaddedAccepts(pre: string, s: string, post: string,
                      whole: string, frac: string, gap: string, unit: string)
    requires Text.AllSpace(pre) && Text.AllSpace(post) && Text.IsTrimmed(s)
    requires s == whole + frac + gap + unit && HeightShape(whole, frac, gap, unit)
    ensures !HeightRejected(pre + s + post)
  {
    Text.TrimOfPadded(pre, s, post);
    HeightPiecesAccepted(whole, frac, gap, unit);
  }

  /** Spaces around the value do not matter. */
  lemma HeightPaddingIgnored()
    ensures !HeightRejected(" 1.78 m ")
  {
    assert " 1.78 m " == " " + "1.78 m" + " ";
    PaddedAccepts(" ", "1.78 m", " ", "1", ".78", " ", "m");
  }

  lemma ScanRejects(s: string)
    requires s != "" && Text.IsTrimmed(s) && !IsHeight(s)
    ensures HeightRejected(s)
  {
    TrimmedAsIs(s);
  }

  lemma DanglingPoint() ensures !IsHeight("1.") {
    DigitsEndAt("1.", 0, 1);
    SpacesEndAt("1.", 1, 1);
    assert "1."[1..] == ".";
  }

  lemma NoIntegerPart() ensures !IsHeight(".5") {
    DigitsEndAt(".5", 0, 0);
  }

  lemma UnknownUnit() ensures !IsHeight("175mm") {
    DigitsEndAt("175mm", 0, 3);
    SpacesEndAt("175mm", 3, 3);
    assert "175mm"[3..] == "mm";
  }

  /** Blank input is rejected. */
  lemma BlankHeightRejected()
    ensures HeightRejected("  ")
  {
    assert Text.AllSpace("  ");
  }

  /** A point must be followed by digits. */
  lemma DanglingPointRejected()
    ensures HeightRejected("1.")
  {
    DanglingPoint();
    ScanRejects("1.");
  }

  /** The integer part is required. */
  lemma MissingIntegerRejected()
    ensures HeightRejected(".5")
  {
    NoIntegerPart();
    ScanRejects(".5");
  }

  /** Only "m" and "cm" are units. */
  lemma UnknownUnitRejected()
    ensures HeightRejected("175mm")
  {
    UnknownUnit();
    ScanRejects("175mm");
  }

  // ---------------------------------------------------------------------------
  // Rating

  /** What JavaScript's `Number(value)` yields: NaN, an infinity, or a finite
      value, held as the exact fraction `num / den`. */
  datatype JsNumber = NaN | Infinity(negative: bool) | Finite(num: int, den: Positive)

  type Positive = n: int | n > 0 witness 1

  /** `Number(value) < 0` (false for NaN). */
  predicate BelowZero(n: JsNumber) {
    match n
    case NaN => false
    case Infinity(negative) => negative
    case Finite(num, den) => num < 0
  }

  /** `Number(value) > 5` (false for NaN). */
  predicate AboveFive(n: JsNumber) {
    match n
    case NaN => false
    case Infinity(negative) => !negative
    case Finite(num, den) => num > 5 * den
  }

  /** `value && (isNaN(Number(value)) || Number(value) < 0 || Number(value) > 5)`;
      `toNumber` stands for `Number`. */
  predicate RatingRejected(v: string, toNumber: string -> JsNumber) {
    v != "" && (toNumber(v).NaN? || BelowZero(toNumber(v)) || AboveFive(toNumber(v)))
  }

  /** A rating passes exactly when it is empty or reads as a finite number
      from 0 to 5, both ends included. */
  lemma RatingRule(v: string, toNumber: string -> JsNumber)
    ensures !RatingRejected(v, toNumber) <==>
      v == "" || (toNumber(v).Finite? && 0 <= toNumber(v).num <= 5 * toNumber(v).den)
  {
  }

  // ---------------------------------------------------------------------------
  // Photos

  /** The photo check: no new file and no kept photo. */
  predicate PhotosRejected(newFiles: nat, keptPhotos: nat) {
    newFiles + keptPhotos == 0
  }

  // ---------------------------------------------------------------------------
  // validateField and the error map of the submit handler

  /** `validateField(name, value)` for a text field: the field's message, or
      "" when it passes; fields without a rule always pass. */
  function ValidateField(f: Field, v: string, toNumber: string -> JsNumber): (message: string)
    ensures message == "" <==> match f
      case Nombre => !NameRejected(v)
      case Altura => !HeightRejected(v)
      case Rating => !RatingRejected(v, toNumber)
      case _ => true
  {
    match f
    case Nombre => if NameRejected(v) then NameMessage else ""
    case Altura => if HeightRejected(v) then HeightMessage else ""
    case Rating => if RatingRejected(v, toNumber) then RatingMessage else ""
    case _ => ""
  }

  /** `validateField("files", files)`, with `existingPhotos` as the closure sees it. */
  function ValidatePhotos(newFiles: nat, keptPhotos: nat): (message: string)
    ensures message == "" <==> !PhotosRejected(newFiles, keptPhotos)
  {
    if PhotosRejected(newFiles, keptPhotos) then PhotosMessage else ""
  }

  /** Which of the four checks reject the form contents. */
  datatype Verdict = Verdict(name: bool, height: bool, rating: bool, photos: bool)

  function Judge(d: FormData, newFiles: nat, keptPhotos: nat,
                 toNumber: string -> JsNumber): Verdict
  {
    Verdict(NameRejected(d.nombre), HeightRejected(d.altura),
            RatingRejected(d.rating, toNumber), PhotosRejected(newFiles, keptPhotos))
  }

  /** Whether the verdict puts an error on the slot. */
  predicate Fails(v: Verdict, s: Slot) {
    match s
    case Input(Nombre) => v.name
    case Input(Altura) => v.height
    case Input(Rating) => v.rating
    case Input(_) => false
    case Photos => v.photos
  }

  /** The message each slot shows when its check fails. */
  function MessageFor(s: Slot): string {
    match s
    case Input(Nombre) => NameMessage
    case Input(Altura) => HeightMessage
    case Input(Rating) => RatingMessage
    case Input(_) => ""
    case Photos => PhotosMessage
  }

  /** `newErrors` of the submit handler: the failing slots and their messages. */
  function ErrorMap(v: Verdict): map<Slot, string>
  {
    map s: Slot | s in AllSlots && Fails(v, s) :: MessageFor(s)
  }

  lemma SlotKnown(s: Slot)
    ensures s in AllSlots
  {
    match s
    case Photos =>
    case Input(f) =>
      match f
      case Nombre => case Genero => case Altura => case Experiencia =>
      case Especialidad => case Descripcion => case Tags => case Rating =>
  }

  /** `validateField` answers with the slot's message exactly when the
      verdict says the slot fails. */
  lemma ValidateFieldAgrees(f: Field, d: FormData, newFiles: nat, keptPhotos: nat,
                            toNumber: string -> JsNumber)
    ensures var v := Judge(d, newFiles, keptPhotos, toNumber);
      ValidateField(f, d.Get(f), toNumber)
        == if Fails(v, Input(f)) then MessageFor(Input(f)) else ""
  {
  }

  /** The form goes to the server exactly when the name, the height, the
      rating and the photo count all pass; otherwise each failing check has
      its message in the map, and nothing else is there. */
  lemma NoErrorsIffAllPass(d: FormData, newFiles: nat, keptPhotos: nat,
                           toNumber: string -> JsNumber)
    ensures var m := ErrorMap(Judge(d, newFiles, keptPhotos, toNumber));
      && (m == map[] <==>
          && !NameRejected(d.nombre)
          && !HeightRejected(d.altura)
          && !RatingRejected(d.rating, toNumber)
          && !PhotosRejected(newFiles, keptPhotos))
      && (Input(Nombre) in m <==> NameRejected(d.nombre))
      && (Input(Altura) in m <==> HeightRejected(d.altura))
      && (Input(Rating) in m <==> RatingRejected(d.rating, toNumber))
      && (Photos in m <==> PhotosRejected(newFiles, keptPhotos))
      && (forall s | s in m :: m[s] != "")
  {
    var v := Judge(d, newFiles, keptPhotos, toNumber);
    VerdictMap(v);
  }

  lemma VerdictMap(v: Verdict)
    ensures var m := ErrorMap(v);
      && (m == map[] <==> !v.name && !v.height && !v.rating && !v.photos)
      && (Input(Nombre) in m <==> v.name)
      && (Input(Altura) in m <==> v.height)
      && (Input(Rating) in m <==> v.rating)
      && (Photos in m <==> v.photos)
      && (forall s | s in m :: m[s] != "")
  {
    var m := ErrorMap(v);
    if !v.name && !v.height && !v.rating && !v.photos {
      forall s ensures s !in m {
        match s
        case Photos =>
        case Input(f) =>
      }
      assert m == map[];
    } else {
      assert Input(Nombre) in m || Input(Altura) in m || Input(Rating) in m || Photos in m;
    }
    forall s | s in m ensures m[s] != "" {
      match s
      case Photos =>
      case Input(f) =>
    }
  }

  /** Every slot that a check can fail has a message to show. */
  lemma MessageNamed(s: Slot)
    requires s in {Input(Nombre), Input(Altura), Input(Rating), Photos}
    ensures MessageFor(s) != ""
  {
  }

  /** The place of a field in `Object.keys(formData)`. */
  function FieldIndex(f: Field): (i: nat)
    ensures i < |FormFields| && FormFields[i] == f
  {
    match f
    case Nombre => 0
    case Genero => 1
    case Altura => 2
    case Experiencia => 3
    case Especialidad => 4
    case Descripcion => 5
    case Tags => 6
    case Rating => 7
  }

  lemma FieldAt(i: nat)
    requires i < |FormFields|
    ensures FieldIndex(FormFields[i]) == i
  {
  }

  /** The body of the `forEach`: `validateField(key, formData[key])`. */
  method CheckField(f: Field, d: FormData, newFiles: nat, keptPhotos: nat,
                    toNumber: string -> JsNumber)
    returns (message: string)
    ensures message == if Fails(Judge(d, newFiles, keptPhotos, toNumber), Input(f))
                       then MessageFor(Input(f)) else ""
  {
    message := ValidateField(f, d.Get(f), toNumber);
    ValidateFieldAgrees(f, d, newFiles, keptPhotos, toNumber);
  }

  /** The errors collected after the first `i` fields of `Object.keys(formData)`. */
  ghost predicate CollectedUpTo(m: map<Slot, string>, v: Verdict, i: nat) {
    && (forall s :: s in m <==> s.Input? && FieldIndex(s.field) < i && Fails(v, s))
    && (forall s | s in m :: m[s] == MessageFor(s))
  }

  lemma CollectStep(before: map<Slot, string>, after: map<Slot, string>, v: Verdict,
                    i: nat, message: string)
    requires i < |FormFields| && CollectedUpTo(before, v, i)
    requires message == if Fails(v, Input(FormFields[i])) then MessageFor(Input(FormFields[i])) else ""
    requires after == if message != "" then before[Input(FormFields[i]) := message] else before
    ensures CollectedUpTo(after, v, i + 1)
  {
    var f := FormFields[i];
    FieldAt(i);
    if Fails(v, Input(f)) {
      MessageNamed(Input(f));
    }
    forall s ensures s in after <==> s.Input? && FieldIndex(s.field) < i + 1 && Fails(v, s) {
      if s != Input(f) {
        assert s in after <==> s in before;
      }
    }
  }

  lemma CollectDone(m: map<Slot, string>, v: Verdict, message: string)
    requires CollectedUpTo(m, v, |FormFields|)
    requires message == if v.photos then PhotosMessage else ""
    ensures (if message != "" then m[Photos := message] else m) == ErrorMap(v)
  {
    var result := if message != "" then m[Photos := message] else m;
    if v.photos {
      MessageNamed(Photos);
    }
    var expected := ErrorMap(v);
    forall s ensures s in result <==> s in expected {
      SlotKnown(s);
    }
  }

  /** The `forEach` over `Object.keys(formData)` followed by the photo check. */
  method CollectErrors(d: FormData, newFiles: nat, keptPhotos: nat,
                       toNumber: string -> JsNumber)
    returns (newErrors: map<Slot, string>)
    ensures newErrors == ErrorMap(Judge(d, newFiles, keptPhotos, toNumber))
  {
    ghost var v := Judge(d, newFiles, keptPhotos, toNumber);
    newErrors := map[];
    var i := 0;
    while i < |FormFields|
      invariant 0 <= i <= |FormFields|
      invariant CollectedUpTo(newErrors, v, i)
    {
      var f := FormFields[i];
      var message := CheckField(f, d, newFiles, keptPhotos, toNumber);
      ghost var before := newErrors;
      if message != "" {
        newErrors := newErrors[Input(f) := message];
      }
      CollectStep(before, newErrors, v, i, message);
      i := i + 1;
    }
    var message := ValidatePhotos(newFiles, keptPhotos);
    CollectDone(newErrors, v, message);
    if message != "" {
      newErrors := newErrors[Photos := message];
    }
  }

  // ---------------------------------------------------------------------------
  // Tags

  /** The tag input's text for a tag list: `tags.join(", ")`. */
  function TagText(tags: seq<string>): string {
    Text.Join(tags, ", ")
  }

  function TrimAll(parts: seq<string>): (r: seq<string>)
    ensures |r| == |parts|
    ensures forall i | 0 <= i < |r| :: r[i] == Text.Trim(parts[i])
  {
    seq(|parts|, i requires 0 <= i < |parts| => Text.Trim(parts[i]))
  }

  /** `tags.split(",").map(t => t.trim()).filter(Boolean)`. */
  function ParseTags(s: string): (tags: seq<string>)
    ensures forall i | 0 <= i < |tags| :: tags[i] != "" && Text.IsTrimmed(tags[i]) && ',' !in tags[i]
    ensures Lists.IsSubsequence(tags, TrimAll(Text.Split(s, ',')))
  {
    var pieces := TrimAll(Text.Split(s, ','));
    TrimmedPiecesCommaFree(Text.Split(s, ','));
    Lists.FilterIsSubsequence((t: string) => t != "", pieces);
    Lists.Filter((t: string) => t != "", pieces)
  }

  /** No tag is lost: every non-empty trimmed piece is kept, as many times as
      it occurs, and only the empty pieces are dropped. */
  lemma ParseTagsKeepsEveryTag(s: string)
    ensures forall t: string :: (multiset(ParseTags(s))[t]
      == if t != "" then multiset(TrimAll(Text.Split(s, ',')))[t] else 0)
  {
    var pieces := TrimAll(Text.Split(s, ','));
    forall t: string
      ensures multiset(ParseTags(s))[t] == if t != "" then multiset(pieces)[t] else 0
    {
      Lists.FilterCount((t: string) => t != "", pieces, t);
    }
  }

  lemma TrimmedPiecesCommaFree(parts: seq<string>)
    requires forall i | 0 <= i < |parts| :: ',' !in parts[i]
    ensures forall i | 0 <= i < |parts| :: ',' !in TrimAll(parts)[i]
  {
    forall i | 0 <= i < |parts| ensures ',' !in TrimAll(parts)[i] {
      Text.TrimKeepsAbsent(parts[i], ',');
    }
  }

  /** A tag as the form can hold it: non-empty, trimmed, comma-free. */
  predicate IsTag(t: string) {
    t != "" && Text.IsTrimmed(t) && ',' !in t
  }

  lemma {:induction false} PaddedTagsSplit(pad: string, tags: seq<string>)
    requires Text.AllSpace(pad) && ',' !in pad
    requires tags != [] && forall i | 0 <= i < |tags| :: IsTag(tags[i])
    ensures TrimAll(Text.Split(pad + TagText(tags), ',')) == tags
    decreases |tags|
  {
    if |tags| == 1 {
      PaddedLastTag(pad, tags[0]);
      assert TagText(tags) == tags[0];
    } else {
      var rest := tags[1..];
      assert Text.AllSpace(" ");
      PaddedTagsSplit(" ", rest);
      PaddedFirstTag(pad, tags);
      assert [tags[0]] + rest == tags;
    }
  }

  lemma PaddedLastTag(pad: string, t: string)
    requires Text.AllSpace(pad) && ',' !in pad && IsTag(t)
    ensures TrimAll(Text.Split(pad + t, ',')) == [t]
  {
    Text.SplitWithoutSeparator(pad + t, ',');
    Text.TrimOfPadded(pad, t, "");
    assert pad + t + "" == pad + t;
  }

  lemma PaddedFirstTag(pad: string, tags: seq<string>)
    requires Text.AllSpace(pad) && ',' !in pad && |tags| >= 2 && IsTag(tags[0])
    ensures TrimAll(Text.Split(pad + TagText(tags), ','))
      == [tags[0]] + TrimAll(Text.Split(" " + TagText(tags[1..]), ','))
  {
    var t, tail := tags[0], " " + TagText(tags[1..]);
    assert pad + TagText(tags) == (pad + t) + [','] + tail;
    Text.SplitAtFirst(pad + t, ',', tail);
    Text.TrimOfPadded(pad, t, "");
    assert pad + t + "" == pad + t;
    TrimAllCons(pad + t, Text.Split(tail, ','));
  }

  lemma TrimAllCons(x: string, xs: seq<string>)
    ensures TrimAll([x] + xs) == [Text.Trim(x)] + TrimAll(xs)
  {
  }

  /** Showing a tag list in the input and submitting it unchanged gives the
      same list back. */
  lemma TagsRoundTrip(tags: seq<string>)
    requires forall i | 0 <= i < |tags| :: IsTag(tags[i])
    ensures ParseTags(TagText(tags)) == tags
  {
    if tags == [] {
      assert TrimAll(Text.Split("", ',')) == [""];
    } else {
      PaddedTagsSplit("", tags);
      assert "" + TagText(tags) == TagText(tags);
      Lists.FilterAllPass((t: string) => t != "", tags);
    }
  }
}
