/**
  * Shared form validators: name sanitising and validation, and the size and
  * content-type checks on uploaded profile images.
  *
  * HTML tag stripping, NFKC normalisation and the Unicode character classes
  * (whitespace, the "C" general category, decimal digits) are library
  * behaviour; they enter the model uninterpreted, as the fields of a
  * `TextLib` value, and every property below holds for all of them.
  */
module Validators {
  import opened Wrappers

  datatype TextLib = TextLib(
    stripTags: string -> string,   // django.utils.html.strip_tags
    nfkc: string -> string,        // unicodedata.normalize("NFKC", _)
    isSpace: char -> bool,         // str.isspace, also what `\s` matches
    isControl: char -> bool,       // unicodedata.category(c)[0] == "C"
    isDigit: char -> bool          // str.isdigit
  )

  /** The behaviour of the character classes on ASCII; every other character is a letter. */
  function AsciiLib(): TextLib
  {
    TextLib(
      s => s,
      s => s,
      c => c == ' ' || '\t' <= c <= '\r' || '\U{1C}' <= c <= '\U{1F}',
      c => c < ' ' || c == '\U{7F}',
      c => '0' <= c <= '9')
  }

  // ---------------------------------------------------------------------
  // Sanitising steps
  // ---------------------------------------------------------------------

  /** `s` with leading characters satisfying `p` removed. */
  function TrimStart(s: string, p: char -> bool): (r: string)
    ensures |r| <= |s| && r == s[|s| - |r|..]
    ensures r != [] ==> !p(r[0])
    ensures forall i :: 0 <= i < |s| - |r| ==> p(s[i])
  {
    if s == [] || !p(s[0]) then s else TrimStart(s[1..], p)
  }

  /** `s` with trailing characters satisfying `p` removed. */
  function TrimEnd(s: string, p: char -> bool): (r: string)
    ensures |r| <= |s| && r == s[..|r|]
    ensures r != [] ==> !p(r[|r| - 1])
    ensures forall i :: |r| <= i < |s| ==> p(s[i])
  {
    if s == [] || !p(s[|s| - 1]) then s else TrimEnd(s[..|s| - 1], p)
  }

  /** Python's `str.strip()`: whitespace removed from both ends. */
  function Strip(s: string, isSpace: char -> bool): (r: string)
    ensures r != [] ==> !isSpace(r[0]) && !isSpace(r[|r| - 1])
  {
    TrimEnd(TrimStart(s, isSpace), isSpace)
  }

  /** The characters of `s` that do not satisfy `drop`, in order. */
  function Remove(s: string, drop: char -> bool): (r: string)
    ensures |r| <= |s|
    ensures forall i :: 0 <= i < |r| ==> !drop(r[i])
    ensures forall i :: 0 <= i < |r| ==> r[i] in s
  {
    if s == [] then []
    else if drop(s[0]) then Remove(s[1..], drop)
    else [s[0]] + Remove(s[1..], drop)
  }

  /** No two adjacent characters both satisfy `p`. */
  predicate NoRun(s: string, p: char -> bool)
  {
    forall i :: 0 < i < |s| ==> !(p(s[i - 1]) && p(s[i]))
  }

  /**
    * `re.sub(r"\s+", " ", s)`: every maximal run of whitespace becomes one
    * space. Called with `s` not starting with whitespace, or after a run
    * has just been consumed.
    */
  function Collapse(s: string, isSpace: char -> bool): (r: string)
    ensures NoRun(r, isSpace)
    ensures s != [] ==> r != [] && r[0] == (if isSpace(s[0]) then ' ' else s[0])
    ensures forall i :: 0 <= i < |r| ==> r[i] == ' ' || r[i] in s
    decreases |s|
  {
    if s == [] then []
    else if isSpace(s[0]) then
      var rest := TrimStart(s[1..], isSpace);
      [' '] + Collapse(rest, isSpace)
    else [s[0]] + Collapse(s[1..], isSpace)
  }

  /** Removing from `a + b` removes from each part. */
  lemma {:induction false} RemoveAppend(a: string, b: string, drop: char -> bool)
    ensures Remove(a + b, drop) == Remove(a, drop) + Remove(b, drop)
  {
    if a == [] {
      assert a + b == b;
    } else {
      assert (a + b)[0] == a[0] && (a + b)[1..] == a[1..] + b;
      RemoveAppend(a[1..], b, drop);
    }
  }

  /** A string of dropped characters leaves nothing. */
  lemma {:induction false} RemoveAllDropped(s: string, drop: char -> bool)
    requires forall i :: 0 <= i < |s| ==> drop(s[i])
    ensures Remove(s, drop) == []
  {
    if s != [] {
      RemoveAllDropped(s[1..], drop);
    }
  }

  /** Trimming leading characters that `keep` drops anyway does not change what `keep` leaves. */
  lemma {:induction false} TrimStartUnseen(s: string, p: char -> bool, keep: char -> bool)
    requires forall c :: p(c) ==> keep(c)
    ensures Remove(TrimStart(s, p), keep) == Remove(s, keep)
  {
    var t := TrimStart(s, p);
    var head := s[..|s| - |t|];
    assert s == head + t;
    assert forall i :: 0 <= i < |head| ==> p(head[i]);
    RemoveAppend(head, t, keep);
    RemoveAllDropped(head, keep);
  }

  /** Trimming trailing characters that `keep` drops anyway does not change what `keep` leaves. */
  lemma {:induction false} TrimEndUnseen(s: string, p: char -> bool, keep: char -> bool)
    requires forall c :: p(c) ==> keep(c)
    ensures Remove(TrimEnd(s, p), keep) == Remove(s, keep)
  {
    var u := TrimEnd(s, p);
    var tail := s[|u|..];
    assert s == u + tail;
    assert forall i :: 0 <= i < |tail| ==> p(tail[i]);
    RemoveAppend(u, tail, keep);
    RemoveAllDropped(tail, keep);
  }

  /** Removing `a` and then `b` removes the characters satisfying either. */
  lemma {:induction false} RemoveTwice(s: string, a: char -> bool, b: char -> bool, both: char -> bool)
    requires forall c :: both(c) == (a(c) || b(c))
    ensures Remove(Remove(s, a), b) == Remove(s, both)
  {
    if s != [] {
      RemoveTwice(s[1..], a, b, both);
      if !a(s[0]) {
        var t := [s[0]] + Remove(s[1..], a);
        assert t[0] == s[0] && t[1..] == Remove(s[1..], a);
      }
    }
  }

  /** Collapsing whitespace runs into spaces keeps the non-space characters, in order. */
  lemma {:induction false} CollapseKeepsText(s: string, isSpace: char -> bool)
    requires isSpace(' ')
    ensures Remove(Collapse(s, isSpace), isSpace) == Remove(s, isSpace)
    decreases |s|
  {
    if s != [] {
      var c := Collapse(s, isSpace);
      if isSpace(s[0]) {
        var rest := TrimStart(s[1..], isSpace);
        CollapseKeepsText(rest, isSpace);
        TrimStartUnseen(s[1..], isSpace, isSpace);
        assert c[0] == ' ' && c[1..] == Collapse(rest, isSpace);
      } else {
        CollapseKeepsText(s[1..], isSpace);
        assert c[0] == s[0] && c[1..] == Collapse(s[1..], isSpace);
      }
    }
  }

  /** The characters `sanitize_name` treats as invisible: control characters and whitespace. */
  function Hidden(lib: TextLib): char -> bool
  {
    c => lib.isControl(c) || lib.isSpace(c)
  }

  /**
    * The structural part of `sanitize_name`: tags stripped, NFKC applied,
    * outer whitespace stripped, control characters dropped, whitespace runs
    * collapsed. A missing or empty input gives "". The text survives: apart
    * from whitespace, the result holds exactly the visible characters of
    * the stripped and normalised input, in order.
    */
  function SanitizeName(name: Option<string>, lib: TextLib): (r: string)
    ensures !Present(name) ==> r == ""
    ensures NoRun(r, lib.isSpace)
    ensures !lib.isControl(' ') ==> forall i :: 0 <= i < |r| ==> !lib.isControl(r[i])
    ensures Present(name) && lib.isSpace(' ') ==>
      Remove(r, lib.isSpace) == Remove(lib.nfkc(lib.stripTags(name.value)), Hidden(lib))
  {
    if !Present(name) then ""
    else
      var tagless := lib.stripTags(name.value);
      var normal := lib.nfkc(tagless);
      var stripped := Strip(normal, lib.isSpace);
      var visible := Remove(stripped, lib.isControl);
      SanitizeKeepsText(normal, lib);
      Collapse(visible, lib.isSpace)
  }

  lemma SanitizeKeepsText(normal: string, lib: TextLib)
    ensures lib.isSpace(' ') ==>
      Remove(Collapse(Remove(Strip(normal, lib.isSpace), lib.isControl), lib.isSpace), lib.isSpace) ==
      Remove(normal, Hidden(lib))
  {
    if lib.isSpace(' ') {
      var h := Hidden(lib);
      var stripped := Strip(normal, lib.isSpace);
      var visible := Remove(stripped, lib.isControl);
      CollapseKeepsText(visible, lib.isSpace);
      RemoveTwice(stripped, lib.isControl, lib.isSpace, h);
      TrimStartUnseen(normal, lib.isSpace, h);
      TrimEndUnseen(TrimStart(normal, lib.isSpace), lib.isSpace, h);
    }
  }

  /** A string with no dropped character is left as it is. */
  lemma {:induction false} RemoveNoneDropped(s: string, drop: char -> bool)
    requires forall i :: 0 <= i < |s| ==> !drop(s[i])
    ensures Remove(s, drop) == s
  {
    if s != [] {
      RemoveNoneDropped(s[1..], drop);
    }
  }

  /** Whitespace that is already single spaces is not changed by collapsing. */
  lemma {:induction false} CollapseSingleSpaces(s: string, isSpace: char -> bool)
    requires NoRun(s, isSpace)
    requires forall i :: 0 <= i < |s| && isSpace(s[i]) ==> s[i] == ' '
    ensures Collapse(s, isSpace) == s
    decreases |s|
  {
    if s != [] {
      assert NoRun(s[1..], isSpace);
      CollapseSingleSpaces(s[1..], isSpace);
      if isSpace(s[0]) {
        assert s[1..] == [] || !isSpace(s[1..][0]);
        assert TrimStart(s[1..], isSpace) == s[1..];
      }
    }
  }

  /**
    * A name that is already clean comes back unchanged: whitespace runs
    * become single spaces in place, and nothing else is touched. Clean means
    * that tag stripping and NFKC leave it alone, it has no control character
    * and no whitespace at either end, and its only whitespace is single
    * `' '` characters.
    */
  lemma CleanNameUnchanged(x: string, lib: TextLib)
    requires lib.stripTags(x) == x && lib.nfkc(x) == x
    requires forall i :: 0 <= i < |x| ==> !lib.isControl(x[i])
    requires x != [] ==> !lib.isSpace(x[0]) && !lib.isSpace(x[|x| - 1])
    requires forall i :: 0 <= i < |x| && lib.isSpace(x[i]) ==> x[i] == ' '
    requires NoRun(x, lib.isSpace)
    ensures SanitizeName(Some(x), lib) == x
  {
    if x != [] {
      assert TrimStart(x, lib.isSpace) == x;
      assert TrimEnd(x, lib.isSpace) == x;
      RemoveNoneDropped(x, lib.isControl);
      CollapseSingleSpaces(x, lib.isSpace);
    }
  }

  /**
    * Stripping happens before control characters are removed, so a control
    * character in front of a space leaves a leading space in the result.
    */
  lemma SanitizedNameNotAlwaysTrimmed()
    ensures SanitizeName(Some("\U{0} Jo"), AsciiLib()) == " Jo"
  {
    var lib := AsciiLib();
    var s := "\U{0} Jo";
    assert !lib.isSpace('\U{0}') && !lib.isSpace('o');
    assert TrimStart(s, lib.isSpace) == s;
    assert TrimEnd(s, lib.isSpace) == s;
    assert lib.isControl('\U{0}') && !lib.isControl(' ') && !lib.isControl('J') && !lib.isControl('o');
    assert Remove("o", lib.isControl) == "o";
    assert Remove("Jo", lib.isControl) == "Jo";
    assert Remove(" Jo", lib.isControl) == " Jo";
    assert Remove(s, lib.isControl) == " Jo";
    assert lib.isSpace(' ') && !lib.isSpace('J');
    assert Collapse("o", lib.isSpace) == "o";
    assert Collapse("Jo", lib.isSpace) == "Jo";
    assert TrimStart("Jo", lib.isSpace) == "Jo";
    assert " Jo"[1..] == "Jo";
    assert Collapse(" Jo", lib.isSpace) == [' '] + Collapse("Jo", lib.isSpace);
    assert Strip(s, lib.isSpace) == s;
    assert lib.stripTags(s) == s && lib.nfkc(s) == s;
    assert Present(Some(s));
  }

  // ---------------------------------------------------------------------
  // validate_name_field
  // ---------------------------------------------------------------------

  datatype NameError = Required | ContainsDigits | TooShort | TooLong

  predicate HasDigit(s: string, isDigit: char -> bool)
  {
    exists i :: 0 <= i < |s| && isDigit(s[i])
  }

  /**
    * `validate_name_field`: the sanitised name, or the first failing check
    * among required, no digits, minimum length, maximum length.
    */
  function ValidateName(name: Option<string>, lib: TextLib, required: bool, minLength: int, maxLength: int)
    : (r: Result<string, NameError>)
    ensures var s := SanitizeName(name, lib);
      && (r == Failure(Required) <==> s == "" && required)
      && (r == Failure(ContainsDigits) <==> s != "" && HasDigit(s, lib.isDigit))
      && (r == Failure(TooShort) <==> s != "" && !HasDigit(s, lib.isDigit) && |s| < minLength)
      && (r == Failure(TooLong) <==> s != "" && !HasDigit(s, lib.isDigit) && minLength <= |s| && |s| > maxLength)
      && (r.Success? <==> (s == "" && !required) || (s != "" && !HasDigit(s, lib.isDigit) && minLength <= |s| <= maxLength))
      && (r.Success? ==> r.value == s)
  {
    var s := SanitizeName(name, lib);
    if s == "" then
      if required then Failure(Required) else Success(s)
    else if HasDigit(s, lib.isDigit) then Failure(ContainsDigits)
    else if |s| < minLength then Failure(TooShort)
    else if |s| > maxLength then Failure(TooLong)
    else Success(s)
  }

  /** An accepted non-empty name is clean: no control characters, no digits, no whitespace runs. */
  lemma AcceptedNameIsClean(name: Option<string>, lib: TextLib, required: bool, minLength: int, maxLength: int)
    requires !lib.isControl(' ')
    requires ValidateName(name, lib, required, minLength, maxLength).Success?
    ensures var s := ValidateName(name, lib, required, minLength, maxLength).value;
      && NoRun(s, lib.isSpace)
      && (forall i :: 0 <= i < |s| ==> !lib.isControl(s[i]) && !lib.isDigit(s[i]))
      && (s == "" || minLength <= |s| <= maxLength)
  {
  }

  // ---------------------------------------------------------------------
  // validate_profile_image
  // ---------------------------------------------------------------------

  datatype ImageError = FileTooLarge | InvalidFileType

  const MaxImageBytes: int := 8 * 1024 * 1024
  const AllowedImageTypes: seq<string> := ["image/jpeg", "image/png", "image/webp", "image/gif"]

  /**
    * An uploaded image: its size in bytes and its content type, where
    * `NoAttribute` stands for an object without a `content_type` attribute.
    */
  datatype ContentType = NoAttribute | ContentTypeOf(value: Option<string>)
  datatype Upload = Upload(size: int, contentType: ContentType)

  function ValidateProfileImage(image: Upload): (r: Result<Upload, ImageError>)
    ensures r == Failure(FileTooLarge) <==> image.size > 8388608
    ensures r == Failure(InvalidFileType) <==>
      image.size <= 8388608 && image.contentType.ContentTypeOf? &&
      image.contentType.value !in [Some("image/jpeg"), Some("image/png"), Some("image/webp"), Some("image/gif")]
    ensures r.Success? ==> r.value == image
  {
    if image.size > MaxImageBytes then Failure(FileTooLarge)
    else if image.contentType.ContentTypeOf? &&
      (image.contentType.value.None? || image.contentType.value.value !in AllowedImageTypes)
    then Failure(InvalidFileType)
    else Success(image)
  }

  /** The limit is inclusive: exactly 8 MiB passes, one byte more does not. */
  lemma EightMebibytesBoundary()
    ensures ValidateProfileImage(Upload(8 * 1024 * 1024, ContentTypeOf(Some("image/jpeg")))).Success?
    ensures ValidateProfileImage(Upload(8 * 1024 * 1024 + 1, ContentTypeOf(Some("image/jpeg")))) == Failure(FileTooLarge)
  {
  }
}
