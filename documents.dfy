/**
 * The document creator: the placeholder shown for the chosen document type
 * (`getPlaceholderText`), the guard of `generateDocument`, the fallback of
 * `generateDocumentContent`, and the download file name built in
 * `downloadDocument` from the prompt, the time and `getFileExtension`.
 */
module Documents {
  import opened Strings
  import opened Notifications

  /** The document types offered, as `data-type` values. */
  const DocumentTypes: set<string> := {"word", "excel", "powerpoint"}

  // ---------------------------------------------------------------------
  // Placeholder text
  // ---------------------------------------------------------------------

  /** The prompt placeholder of each document type.  (The texts are cut in
      pieces of at most ten characters, which the verifier handles much
      faster than one long literal.) */
  const Placeholders: map<string, string> := map[
    "word" :=
      "D" + "escribe th" + "e document" + " you want " + "to create " + "(e.g., 'Cr" +
      "eate a bus" + "iness prop" + "osal for a" + " new mobil" + "e app with" + " market an" +
      "alysis, fi" + "nancial pr" + "ojections," + " and imple" + "mentation " + "timeline')",
    "excel" :=
      "Des" + "cribe the " + "spreadshee" + "t you need" + " (e.g., 'C" + "reate a co" +
      "mprehensiv" + "e budget t" + "racker wit" + "h monthly " + "expenses, " + "income cat" +
      "egories, a" + "nd savings" + " goals wit" + "h charts')",
    "powerpoint" :=
      "Descr" + "ibe your p" + "resentatio" + "n (e.g., '" + "Create a 1" + "0-slide pr" +
      "esentation" + " about ren" + "ewable ene" + "rgy benefi" + "ts, includ" + "ing statis" +
      "tics, case" + " studies, " + "and future" + " outlook')"
  ]

  /** The placeholder of any other type. */
  const DefaultPlaceholder: string := "Describe what you want to create..."

  /** `getPlaceholderText(type)`: the placeholder of the type, and the generic
      one for a type outside the three. */
  function PlaceholderText(docType: string): (r: string)
    ensures docType in DocumentTypes ==> r == Placeholders[docType]
    ensures docType !in DocumentTypes ==> r == DefaultPlaceholder
  {
    LookupOr(Placeholders, docType, DefaultPlaceholder)
  }

  /** The generic placeholder is shown exactly for the types outside the
      three: none of the three placeholders is the generic one. */
  lemma PlaceholderDefaultIff(docType: string)
    ensures PlaceholderText(docType) == DefaultPlaceholder <==> docType !in DocumentTypes
  {
    var w, e, p := Placeholders["word"], Placeholders["excel"], Placeholders["powerpoint"];
    var d := DefaultPlaceholder;
    assert w[|w| - 1] == ')' && e[|e| - 1] == ')' && p[|p| - 1] == ')' && d[|d| - 1] == '.';
  }

  /** The three types show three different placeholders. */
  lemma PlaceholderInjective(a: string, b: string)
    requires a in DocumentTypes && b in DocumentTypes
    ensures PlaceholderText(a) == PlaceholderText(b) <==> a == b
  {
    var w, e, p := Placeholders["word"], Placeholders["excel"], Placeholders["powerpoint"];
    assert w[|w| - 3] == 'e' && e[|e| - 3] == 's' && p[|p| - 3] == 'k';
  }

  // ---------------------------------------------------------------------
  // Generating a document
  // ---------------------------------------------------------------------

  /** What pressing "Generate" leads to: an alert, or a document generated
      from the trimmed prompt. */
  datatype Generation = Alert(text: string) | Generate(prompt: string)

  /** The guard of `generateDocument`: the prompt is trimmed, and a blank one
      is refused with an alert. */
  function GenerateDocument(input: string): (r: Generation)
    ensures r.Alert? <==> IsBlank(input)
    ensures r.Alert? ==> r.text == "Please describe what document you want to create"
    ensures r.Generate? ==> r.prompt == Trim(input) && r.prompt != []
  {
    TrimEmptyIffBlank(input);
    var prompt := Trim(input);
    if prompt == [] then Alert("Please describe what document you want to create")
    else Generate(prompt)
  }

  /** What the preview shows: the template of one of the three types, or the
      fallback paragraph. */
  datatype Content = Template(docType: string) | Paragraph(html: string)

  /** `generateDocumentContent(type, prompt)` up to the templates themselves:
      the three types have a template, any other type gets a fixed
      paragraph. */
  function DocumentContent(docType: string): (r: Content)
    ensures r.Paragraph? <==> docType !in DocumentTypes
    ensures r.Template? ==> r.docType == docType
    ensures r.Paragraph? ==> r.html == "<p>Document generated successfully!</p>"
  {
    if docType in DocumentTypes then Template(docType)
    else Paragraph("<p>Document generated successfully!</p>")
  }

  // ---------------------------------------------------------------------
  // File extension
  // ---------------------------------------------------------------------

  /** The file extension of each document type. */
  const Extensions: map<string, string> := map["word" := "docx", "excel" := "xlsx", "powerpoint" := "pptx"]

  /** The extension of any other type. */
  const DefaultExtension: string := "txt"

  /** A letter or a digit of ASCII. */
  predicate IsAlnum(c: char) {
    'a' <= c <= 'z' || 'A' <= c <= 'Z' || '0' <= c <= '9'
  }

  /** `getFileExtension(type)`: "docx", "xlsx" or "pptx" for the three types,
      "txt" for any other; it is never empty and made of ASCII letters and digits. */
  function FileExtension(docType: string): (r: string)
    ensures r == DefaultExtension <==> docType !in DocumentTypes
    ensures docType in DocumentTypes ==> r == Extensions[docType]
    ensures r != [] && forall i :: 0 <= i < |r| ==> IsAlnum(r[i])
  {
    LookupOr(Extensions, docType, DefaultExtension)
  }

  /** The three types get three different extensions. */
  lemma FileExtensionInjective(a: string, b: string)
    requires a in DocumentTypes && b in DocumentTypes
    ensures FileExtension(a) == FileExtension(b) <==> a == b
  {
  }

  // ---------------------------------------------------------------------
  // File name
  // ---------------------------------------------------------------------

  /** How many UTF-16 code units of the prompt the file name keeps. */
  const StemLength: nat := 30

  /** The largest time value of ECMAScript (section 21.4.1.1 of ECMA-262):
      `Date.now()` never exceeds it. */
  const MaxTimeValue: nat := 8_640_000_000_000_000

  /** A code unit the pattern `[a-zA-Z0-9]` matches. */
  predicate IsAlnumUnit(u: int) {
    0 <= u < 0x80 && IsAlnum(u as char)
  }

  /** A character a file name stem may hold. */
  predicate IsStemChar(c: char) {
    IsAlnum(c) || c == '_'
  }

  /** The replacement `/[^a-zA-Z0-9]/g` makes of one code unit. */
  function SanitizeUnit(u: int): (c: char)
    ensures IsStemChar(c)
    ensures IsAlnum(c) <==> IsAlnumUnit(u)
  {
    if IsAlnumUnit(u) then u as char else '_'
  }

  /** `prompt.substring(0, 30).replace(/[^a-zA-Z0-9]/g, '_')`: both work on
      UTF-16 code units, so each of the first 30 units is kept when it is an
      ASCII letter or digit and becomes `_` otherwise. */
  function FilenameStem(prompt: string): (r: string)
    ensures |r| == Min(StemLength, |Utf16(prompt)|)
    ensures forall i :: 0 <= i < |r| ==> IsStemChar(r[i])
  {
    var units := Utf16(prompt);
    seq(Min(StemLength, |units|), i requires 0 <= i < Min(StemLength, |units|) => SanitizeUnit(units[i]))
  }

  /** The smaller of two numbers. */
  function Min(a: nat, b: nat): nat {
    if a <= b then a else b
  }

  /** For a prompt of the Basic Multilingual Plane, the stem has as many
      characters as the prompt, up to 30, and each is the prompt's own
      character when that is a letter or digit of ASCII and `_` otherwise. */
  lemma StemOfBmp(prompt: string)
    requires forall i :: 0 <= i < |prompt| ==> prompt[i] as int < 0x1_0000
    ensures |FilenameStem(prompt)| == Min(StemLength, |prompt|)
    ensures forall i :: 0 <= i < |FilenameStem(prompt)| ==>
      FilenameStem(prompt)[i] == (if IsAlnum(prompt[i]) then prompt[i] else '_')
  {
    Utf16OfBmp(prompt);
  }

  /** A character outside the Basic Multilingual Plane takes two code units
      and so becomes two underscores: an emoji prompt gives "__". */
  lemma StemOfAstral(c: char)
    requires c as int >= 0x1_0000
    ensures FilenameStem([c]) == "__"
  {
    assert Utf16([c]) == Utf16Units(c);
  }

  /** A stem is its own stem: it is made of ASCII letters, digits and `_`,
      and at most 30 of them. */
  lemma StemIdempotent(prompt: string)
    ensures FilenameStem(FilenameStem(prompt)) == FilenameStem(prompt)
  {
    var s := FilenameStem(prompt);
    StemOfBmp(s);
  }

  /** The download file name: the stem, `_`, the time in milliseconds as a
      decimal numeral, `.` and the extension of the type.  It starts with the
      stem and `_` and ends with `.` and the extension; `FilenameRoundTrip`
      and `FilenameCharacters` show how it splits back into its parts. */
  function Filename(prompt: string, docType: string, time: nat): (r: string)
    requires time <= MaxTimeValue
    ensures StartsWith(r, FilenameStem(prompt) + "_")
    ensures var tail := "." + FileExtension(docType);
      |tail| <= |r| && r[|r| - |tail|..] == tail
  {
    var head := FilenameStem(prompt) + "_";
    var tail := "." + FileExtension(docType);
    var r := head + NatToString(time) + tail;
    assert r == head + (NatToString(time) + tail);
    r
  }

  datatype Option<T> = None | Some(value: T)

  /** The parts a file name splits into. */
  datatype FilenameParts = FilenameParts(stem: string, time: nat, extension: string)

  /** Splitting a file name at its last `.` and at the last `_` before it;
      nothing when either is missing or the part between them is not a
      numeral. */
  function ParseFilename(name: string): Option<FilenameParts> {
    var dot := LastIndexOf(name, '.');
    if dot < 0 then None
    else
      var base := name[..dot];
      var sep := LastIndexOf(base, '_');
      if sep < 0 then None
      else
        var digits := base[sep + 1..];
        if digits != [] && forall i :: 0 <= i < |digits| ==> IsDigit(digits[i])
        then Some(FilenameParts(base[..sep], ParseNat(digits), name[dot + 1..]))
        else None
  }

  /** A file name splits back into the stem, the time and the extension it
      was made of. */
  lemma FilenameRoundTrip(prompt: string, docType: string, time: nat)
    requires time <= MaxTimeValue
    ensures ParseFilename(Filename(prompt, docType, time)) ==
      Some(FilenameParts(FilenameStem(prompt), time, FileExtension(docType)))
  {
    var stem, digits, ext := FilenameStem(prompt), NatToString(time), FileExtension(docType);
    var name := Filename(prompt, docType, time);
    var base := stem + "_" + digits;
    assert name == base + "." + ext;
    assert '.' !in ext;
    LastIndexOfSeparator(base, '.', ext);
    assert name[..|base|] == base && name[|base| + 1..] == ext;
    assert '_' !in digits;
    LastIndexOfSeparator(stem, '_', digits);
    assert base[..|stem|] == stem && base[|stem| + 1..] == digits;
    ParseNatToString(time);
  }

  /** Every character of a file name is a letter or digit of ASCII, `_` or
      `.`, and there is exactly one `.`: the one before the extension. */
  lemma FilenameCharacters(prompt: string, docType: string, time: nat)
    requires time <= MaxTimeValue
    ensures var name := Filename(prompt, docType, time);
      forall i :: 0 <= i < |name| ==>
        (IsStemChar(name[i]) || name[i] == '.') &&
        (name[i] == '.' <==> i == |name| - |FileExtension(docType)| - 1)
  {
    var stem, digits, ext := FilenameStem(prompt), NatToString(time), FileExtension(docType);
    var name := Filename(prompt, docType, time);
    forall i | 0 <= i < |name|
      ensures (IsStemChar(name[i]) || name[i] == '.') &&
        (name[i] == '.' <==> i == |name| - |ext| - 1)
    {
      if i < |stem| {
        assert name[i] == stem[i];
      } else if i == |stem| {
        assert name[i] == '_';
      } else if i <= |stem| + |digits| {
        assert name[i] == digits[i - |stem| - 1];
      } else if i > |stem| + |digits| + 1 {
        assert name[i] == ext[i - |stem| - |digits| - 2];
      }
    }
  }

  /** `downloadDocument(type, prompt)` ends with this success banner naming
      the file. */
  function DownloadNotice(prompt: string, docType: string, time: nat): (n: Notification)
    requires time <= MaxTimeValue
    ensures n.kind == "success"
  {
    Notification("Document \"" + Filename(prompt, docType, time) + "\" has been downloaded successfully!", "success")
  }
}
