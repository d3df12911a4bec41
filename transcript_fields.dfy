/** The pattern-matching reader that turns a spoken self-introduction into
    profile fields (`parseTranscriptionToFields` of the voice input component).

    Each regular expression of the reader is modelled as a match attempt at one
    position plus the leftmost search over start positions (`FirstSome`). A lazy
    `.*?` tries the positions up to the end of the line in increasing order, and a
    greedy run followed by more pattern gives characters back from the longest
    run first (`LastSome`). The `i` flag compares the text, lowered, with a
    lower-case literal. */
module TranscriptFields {
  import opened Text
  import opened Json

  /** The fields the reader fills in, each absent or set to a text. */
  datatype Extracted = Extracted(
    gender: Option<string>,
    firstName: Option<string>, lastName: Option<string>,
    age: Option<string>, dateOfBirth: Option<string>,
    phoneNumber: Option<string>,
    addressLine1: Option<string>,
    bio: Option<string>,
    emergencyContactName: Option<string>, emergencyContactPhone: Option<string>,
    interests: Option<string>, activityPreferences: Option<string>, languagePreferences: Option<string>,
    mobilityLevel: Option<string>)

  const NothingFound: Extracted :=
    Extracted(None, None, None, None, None, None, None, None, None, None, None, None, None, None)

  /** The profile columns the reader can fill in. */
  const ColumnNames: set<string> :=
    {"gender", "first_name", "last_name", "age", "date_of_birth", "phone_number", "address_line1",
     "bio", "emergency_contact_name", "emergency_contact_phone", "interests", "activity_preferences",
     "language_preferences", "mobility_level"}

  /** The value found for the column named `n`. */
  function Column(e: Extracted, n: string): Option<string>
  {
    if n == "gender" then e.gender
    else if n == "first_name" then e.firstName
    else if n == "last_name" then e.lastName
    else if n == "age" then e.age
    else if n == "date_of_birth" then e.dateOfBirth
    else if n == "phone_number" then e.phoneNumber
    else if n == "address_line1" then e.addressLine1
    else if n == "bio" then e.bio
    else if n == "emergency_contact_name" then e.emergencyContactName
    else if n == "emergency_contact_phone" then e.emergencyContactPhone
    else if n == "interests" then e.interests
    else if n == "activity_preferences" then e.activityPreferences
    else if n == "language_preferences" then e.languagePreferences
    else if n == "mobility_level" then e.mobilityLevel
    else None
  }

  /** The findings as the column-name record the reader returns. */
  function Named(e: Extracted): (m: map<string, string>)
    ensures forall n :: n in m <==> n in ColumnNames && Column(e, n).Some?
  {
    map n | n in ColumnNames && Column(e, n).Some? :: Column(e, n).value
  }

  // ---------------------------------------------------------------- pattern pieces

  /** The character classes the reader's patterns use. */
  datatype CharClass =
    | NameChars     // [a-zA-Z\s]
    | AddressChars  // [^.!?]
    | DigitChars    // \d
    | Separators    // [-.\s]

  predicate InClass(c: char, cls: CharClass)
  {
    match cls
    case NameChars => IsAsciiLetter(c) || IsJsSpace(c)
    case AddressChars => c != '.' && c != '!' && c != '?'
    case DigitChars => IsDigit(c)
    case Separators => c == '-' || c == '.' || IsJsSpace(c)
  }

  /** The end of the longest run of `cls` characters starting at `i`. */
  function RunEnd(s: string, i: nat, cls: CharClass): (e: nat)
    requires i <= |s|
    ensures i <= e <= |s|
    ensures forall k :: i <= k < e ==> InClass(s[k], cls)
    ensures e == |s| || !InClass(s[e], cls)
    decreases |s| - i
  {
    if i == |s| || !InClass(s[i], cls) then i else RunEnd(s, i + 1, cls)
  }

  /** The first line terminator at or after `i`, or the end: as far as `.` reaches. */
  function LineEnd(s: string, i: nat): (e: nat)
    requires i <= |s|
    ensures i <= e <= |s|
    ensures forall k :: i <= k < e ==> !IsLineTerminator(s[k])
    ensures e == |s| || IsLineTerminator(s[e])
    decreases |s| - i
  {
    if i == |s| || IsLineTerminator(s[i]) then i else LineEnd(s, i + 1)
  }

  /** The lower-case literal `lit` matches at `p`, ignoring case. */
  predicate LiteralAt(s: string, p: nat, lit: string)
  {
    p + |lit| <= |s| && Lower(s[p..p + |lit|]) == lit
  }

  /** Where a literal matches, each of its characters is the lowered text. */
  lemma LiteralAtChar(s: string, p: nat, lit: string, j: nat)
    requires j < |lit|
    ensures LiteralAt(s, p, lit) ==> LowerChar(s[p + j]) == lit[j]
  {
    if LiteralAt(s, p, lit) {
      assert Lower(s[p..p + |lit|])[j] == LowerChar(s[p + j]);
    }
  }

  /** `phrase([cls]+)` tried at `p`: the whole run of `cls` after the phrase. */
  function PhraseRunAt(s: string, phrase: string, cls: CharClass, p: nat): (r: Option<string>)
    ensures r.Some? ==> r.value != [] && forall k :: 0 <= k < |r.value| ==> InClass(r.value[k], cls)
  {
    if LiteralAt(s, p, phrase) && p + |phrase| < |s| && InClass(s[p + |phrase|], cls) then
      Some(s[p + |phrase|..RunEnd(s, p + |phrase|, cls)])
    else None
  }

  /** The capture of `/phrase([cls]+)/i` in `s`, at its leftmost match. */
  function PhraseRun(s: string, phrase: string, cls: CharClass): (r: Option<string>)
    ensures r.Some? ==> r.value != [] && forall k :: 0 <= k < |r.value| ==> InClass(r.value[k], cls)
  {
    Found(FirstSome(0, |s| + 1, (p: nat) => PhraseRunAt(s, phrase, cls, p)))
  }

  /** The leftmost position where the phrase pattern matches gives the capture. */
  lemma PhraseRunFirstAt(s: string, phrase: string, cls: CharClass, p: nat)
    requires p <= |s|
    requires forall k: nat :: k < p ==> PhraseRunAt(s, phrase, cls, k).None?
    requires PhraseRunAt(s, phrase, cls, p).Some?
    ensures PhraseRun(s, phrase, cls) == PhraseRunAt(s, phrase, cls, p)
  {
    var f := (q: nat) => PhraseRunAt(s, phrase, cls, q);
    var r := FirstSome(0, |s| + 1, f);
    assert f(p).Some?;
    assert forall k: nat :: k < p ==> f(k).None?;
    assert r.Some? && r.value.0 == p;
  }

  /** The capture of the first phrase pattern in `phrases` that matches `s`. */
  function FirstPhraseRun(s: string, phrases: seq<string>, cls: CharClass): (r: Option<string>)
    ensures r.Some? ==> r.value != [] && forall k :: 0 <= k < |r.value| ==> InClass(r.value[k], cls)
    decreases |phrases|
  {
    if phrases == [] then None
    else if PhraseRun(s, phrases[0], cls).Some? then PhraseRun(s, phrases[0], cls)
    else FirstPhraseRun(s, phrases[1..], cls)
  }

  // ---------------------------------------------------------------- name

  const NamePhrases: seq<string> := ["my name is ", "i am ", "call me ", "i'm "]

  /** First name and last name from a captured full name: the first word, and the
      other words joined back with single spaces. */
  function NameParts(capture: string): (Option<string>, Option<string>)
  {
    var full := Trim(capture);
    var parts := Split(full, ' ');
    if |parts| >= 2 then (Some(parts[0]), Some(Join(parts[1..], " "))) else (Some(full), None)
  }

  function NameOf(text: string): (Option<string>, Option<string>)
  {
    match FirstPhraseRun(text, NamePhrases, NameChars)
    case Some(c) => NameParts(c)
    case None => (None, None)
  }

  method ExtractName(text: string) returns (first: Option<string>, last: Option<string>)
    ensures (first, last) == NameOf(text)
  {
    first, last := None, None;
    var i := 0;
    while i < |NamePhrases|
      invariant i <= |NamePhrases|
      invariant FirstPhraseRun(text, NamePhrases[i..], NameChars) == FirstPhraseRun(text, NamePhrases, NameChars)
    {
      var m := PhraseRun(text, NamePhrases[i], NameChars);
      if m.Some? {
        var fullName := Trim(m.value);
        var nameParts := Split(fullName, ' ');
        if |nameParts| >= 2 {
          first, last := Some(nameParts[0]), Some(Join(nameParts[1..], " "));
        } else {
          first := Some(fullName);
        }
        return;
      }
      assert NamePhrases[i..][1..] == NamePhrases[i + 1..];
      i := i + 1;
    }
  }

  lemma SplitHasSeparator(s: string, sep: char)
    requires sep in s
    ensures |Split(s, sep)| >= 2
  {
  }

  /** The first name is one word; with a last name, the two joined by a space
      give back the trimmed capture, and without one the capture is a single word. */
  lemma NamePartsRejoin(capture: string)
    ensures NameParts(capture).0.Some?
    ensures ' ' !in NameParts(capture).0.value
    ensures NameParts(capture).1.Some? ==>
      NameParts(capture).0.value + " " + NameParts(capture).1.value == Trim(capture)
    ensures NameParts(capture).1.None? ==> NameParts(capture).0.value == Trim(capture)
  {
    var full := Trim(capture);
    var parts := Split(full, ' ');
    JoinSplit(full, ' ');
    if |parts| >= 2 {
      assert Join(parts, " ") == parts[0] + " " + Join(parts[1..], " ");
    } else {
      if ' ' in full {
        SplitHasSeparator(full, ' ');
      }
      assert parts == [full];
    }
  }

  /** The name found is the first name pattern's capture, split as above. */
  lemma NameOfMeaning(text: string)
    ensures NameOf(text).1.Some? ==> NameOf(text).0.Some?
    ensures NameOf(text).0.Some? ==> ' ' !in NameOf(text).0.value
    ensures NameOf(text).1.Some? ==>
      exists c :: FirstPhraseRun(text, NamePhrases, NameChars) == Some(c)
                  && NameOf(text).0.value + " " + NameOf(text).1.value == Trim(c)
  {
    match FirstPhraseRun(text, NamePhrases, NameChars)
    case Some(c) => NamePartsRejoin(c);
    case None =>
  }

  // ---------------------------------------------------------------- age

  /** `before(\d{1,2})after`, with `before` and `after` lower-case literals. */
  datatype AgePattern = AgePattern(before: string, after: string)

  const AgePatterns: seq<AgePattern> :=
    [AgePattern("i am ", " years old"), AgePattern("", " years old"), AgePattern("my age is ", "")]

  /** The pattern tried at `p`: two digits first, then one, as `\d{1,2}` backtracks. */
  function AgeDigitsAt(s: string, pat: AgePattern, p: nat): (r: Option<string>)
    ensures r.Some? ==> 1 <= |r.value| <= 2 && AllDigits(r.value)
  {
    if !LiteralAt(s, p, pat.before) then None
    else
      var d := p + |pat.before|;
      if d + 2 <= |s| && AllDigits(s[d..d + 2]) && LiteralAt(s, d + 2, pat.after) then Some(s[d..d + 2])
      else if d + 1 <= |s| && AllDigits(s[d..d + 1]) && LiteralAt(s, d + 1, pat.after) then Some(s[d..d + 1])
      else None
  }

  function AgeDigits(s: string, pat: AgePattern): (r: Option<string>)
    ensures r.Some? ==> 1 <= |r.value| <= 2 && AllDigits(r.value)
  {
    Found(FirstSome(0, |s| + 1, (p: nat) => AgeDigitsAt(s, pat, p)))
  }

  /** The digits captured by the first age pattern that matches. */
  function FirstAge(text: string, pats: seq<AgePattern>): (r: Option<string>)
    ensures r.Some? ==> 1 <= |r.value| <= 2 && AllDigits(r.value)
    decreases |pats|
  {
    if pats == [] then None
    else if AgeDigits(text, pats[0]).Some? then AgeDigits(text, pats[0])
    else FirstAge(text, pats[1..])
  }

  /** The age and an approximate date of birth (1 January of `year - age`), kept
      only for an age strictly between 0 and 120. */
  function AgeParts(digits: string, year: int): (Option<string>, Option<string>)
    requires AllDigits(digits)
  {
    var age := ParseDigits(digits);
    if 0 < age < 120 then (Some(NatToString(age)), Some(IntToString(year - age) + "-01-01"))
    else (None, None)
  }

  function AgeOf(text: string, year: int): (Option<string>, Option<string>)
  {
    match FirstAge(text, AgePatterns)
    case Some(d) => AgeParts(d, year)
    case None => (None, None)
  }

  method ExtractAge(text: string, year: int) returns (age: Option<string>, dateOfBirth: Option<string>)
    ensures (age, dateOfBirth) == AgeOf(text, year)
  {
    age, dateOfBirth := None, None;
    var i := 0;
    while i < |AgePatterns|
      invariant i <= |AgePatterns|
      invariant FirstAge(text, AgePatterns[i..]) == FirstAge(text, AgePatterns)
    {
      var m := AgeDigits(text, AgePatterns[i]);
      if m.Some? {
        var years := ParseDigits(m.value);
        if 0 < years < 120 {
          age := Some(NatToString(years));
          dateOfBirth := Some(IntToString(year - years) + "-01-01");
        }
        return;
      }
      assert AgePatterns[i..][1..] == AgePatterns[i + 1..];
      i := i + 1;
    }
  }

  lemma {:induction false} TwoDigitsBelowHundred(d: string)
    requires AllDigits(d) && |d| <= 2
    ensures ParseDigits(d) < 100
  {
    if d != [] {
      TwoDigitsBelowHundred(d[..|d| - 1]);
      if |d| == 2 {
        assert ParseDigits(d[..1]) < 10 by {
          assert d[..1][..0] == [];
        }
      }
    }
  }

  /** An age is the decimal text of a number from 1 to 99, always comes with a
      date of birth, and the date's year is `year` minus that number. */
  lemma AgeOfMeaning(text: string, year: int)
    ensures AgeOf(text, year).0.Some? <==> AgeOf(text, year).1.Some?
    ensures AgeOf(text, year).0.Some? ==>
      exists age: nat :: 0 < age < 100
        && AgeOf(text, year).0.value == NatToString(age)
        && AgeOf(text, year).1.value == IntToString(year - age) + "-01-01"
  {
    match FirstAge(text, AgePatterns)
    case Some(d) =>
      TwoDigitsBelowHundred(d);
      if AgeOf(text, year).0.Some? {
        var age := ParseDigits(d);
        assert AgeOf(text, year).0.value == NatToString(age);
      }
    case None =>
  }

  // ---------------------------------------------------------------- phone number

  /** The digit part of a phone pattern: digit groups of the given sizes with
      separators between them (any number of separators, or exactly one), or a
      run of `least` to `most` digits taken greedily. */
  datatype DigitShape =
    | Grouped(sizes: seq<nat>, singleSep: bool)
    | DigitRun(least: nat, most: nat)

  function GroupsEnd(s: string, q: nat, sizes: seq<nat>, singleSep: bool): (e: Option<nat>)
    requires q <= |s|
    ensures e.Some? ==> q <= e.value <= |s|
    decreases |sizes|
  {
    if sizes == [] then Some(q)
    else
      var g := q + sizes[0];
      if g <= |s| && AllDigits(s[q..g]) then
        if |sizes| == 1 then Some(g)
        else if singleSep then
          if g < |s| && InClass(s[g], Separators) then GroupsEnd(s, g + 1, sizes[1..], singleSep) else None
        else GroupsEnd(s, RunEnd(s, g, Separators), sizes[1..], singleSep)
      else None
  }

  /** Where the shape ends when it is matched from `q`. */
  function ShapeEnd(s: string, q: nat, shape: DigitShape): (e: Option<nat>)
    requires q <= |s|
    ensures e.Some? ==> q <= e.value <= |s|
  {
    match shape
    case Grouped(sizes, singleSep) => GroupsEnd(s, q, sizes, singleSep)
    case DigitRun(least, most) =>
      var r := RunEnd(s, q, DigitChars);
      if r - q >= least then Some(q + Min(r - q, most)) else None
  }

  const PhoneKeywords: seq<string> := ["phone", "number", "contact", "call", "mobile", "cell"]

  /** `(?:phone|number|contact|call|mobile|cell)` tried at `p`: where it ends. */
  function KeywordEnd(s: string, p: nat): (e: Option<nat>)
    ensures e.Some? ==> p <= e.value <= |s|
  {
    Found(FirstSome(0, |PhoneKeywords|, (i: nat) =>
      if i < |PhoneKeywords| && LiteralAt(s, p, PhoneKeywords[i]) then Some(p + |PhoneKeywords[i]|) else None))
  }

  /** `keyword.*?(shape)` tried at `p`: the text the shape matched. */
  function ContextMatchAt(s: string, shape: DigitShape, p: nat): Option<string>
  {
    match KeywordEnd(s, p)
    case None => None
    case Some(e) =>
      Found(FirstSome(e, LineEnd(s, e) + 1, (q: nat) =>
        if q <= |s| then
          (match ShapeEnd(s, q, shape)
           case Some(end) => Some(s[q..end])
           case None => None)
        else None))
  }

  function ContextMatch(s: string, shape: DigitShape): Option<string>
  {
    Found(FirstSome(0, |s| + 1, (p: nat) => ContextMatchAt(s, shape, p)))
  }

  /** `\b(shape)\b` tried at `p`: where the match ends. Every shape starts and
      ends with a digit, so the boundaries are a non-word character (or the end)
      on the outside of each. */
  function BoundedAt(s: string, shape: DigitShape, p: nat): (e: Option<nat>)
    ensures e.Some? ==> p < e.value <= |s|
  {
    if p <= |s| && (p == 0 || !IsWordChar(s[p - 1])) then
      match ShapeEnd(s, p, shape)
      case Some(e) => if p < e && (e == |s| || !IsWordChar(s[e])) then Some(e) else None
      case None => None
    else None
  }

  /** `s.matchAll(/\b(shape)\b/g)` from position `from`: the matches, left to
      right, each search starting where the previous match ended. */
  function MatchesFrom(s: string, shape: DigitShape, from: nat): seq<string>
    requires from <= |s|
    decreases |s| - from
  {
    match FirstSome(from, |s| + 1, (p: nat) => BoundedAt(s, shape, p))
    case None => []
    case Some((p, e)) => [s[p..e]] + MatchesFrom(s, shape, e)
  }

  predicate ValidPhone(clean: string) { 8 <= |clean| <= 15 }

  /** The digits of a match, when there are 8 to 15 of them. */
  function CleanPhone(m: string): (r: Option<string>)
    ensures r.Some? ==> AllDigits(r.value) && ValidPhone(r.value)
  {
    if ValidPhone(DigitsOf(m)) then Some(DigitsOf(m)) else None
  }

  const ContextShapes: seq<DigitShape> := [Grouped([4, 4], false), Grouped([3, 3, 4], false), DigitRun(8, 15)]

  const StandaloneShapes: seq<DigitShape> :=
    [Grouped([4, 4], true), Grouped([3, 3, 4], true), DigitRun(8, 8), DigitRun(10, 10)]

  function ContextCandidate(s: string, shape: DigitShape): (r: Option<string>)
    ensures r.Some? ==> AllDigits(r.value) && ValidPhone(r.value)
  {
    match ContextMatch(s, shape)
    case Some(m) => CleanPhone(m)
    case None => None
  }

  /** The number next to a keyword, from the first context pattern whose match
      cleans to 8-15 digits. */
  function ContextPhone(s: string, shapes: seq<DigitShape>): (r: Option<string>)
    ensures r.Some? ==> AllDigits(r.value) && ValidPhone(r.value)
    decreases |shapes|
  {
    if shapes == [] then None
    else if ContextCandidate(s, shapes[0]).Some? then ContextCandidate(s, shapes[0])
    else ContextPhone(s, shapes[1..])
  }

  /** The first of the matches that cleans to 8-15 digits. */
  function FirstValid(ms: seq<string>): (r: Option<string>)
    ensures r.Some? ==> AllDigits(r.value) && ValidPhone(r.value)
  {
    if ms == [] then None
    else if CleanPhone(ms[0]).Some? then CleanPhone(ms[0])
    else FirstValid(ms[1..])
  }

  /** A number standing alone, from the first standalone pattern with a match
      that cleans to 8-15 digits. */
  function StandalonePhone(s: string, shapes: seq<DigitShape>): (r: Option<string>)
    ensures r.Some? ==> AllDigits(r.value) && ValidPhone(r.value)
    decreases |shapes|
  {
    if shapes == [] then None
    else if FirstValid(MatchesFrom(s, shapes[0], 0)).Some? then FirstValid(MatchesFrom(s, shapes[0], 0))
    else StandalonePhone(s, shapes[1..])
  }

  /** A number next to a keyword wins; otherwise a number standing alone. */
  function FoundPhone(s: string): Option<string>
  {
    if ContextPhone(s, ContextShapes).Some? then ContextPhone(s, ContextShapes)
    else StandalonePhone(s, StandaloneShapes)
  }

  /** The phone number the reader keeps is made of 8 to 15 decimal digits. */
  lemma FoundPhoneIsDigits(s: string)
    ensures FoundPhone(s).Some? ==> AllDigits(FoundPhone(s).value) && ValidPhone(FoundPhone(s).value)
  {
  }

  method ExtractPhone(text: string) returns (phone: Option<string>)
    ensures phone == FoundPhone(text)
  {
    phone := None;
    var i := 0;
    while i < |ContextShapes|
      invariant i <= |ContextShapes|
      invariant ContextPhone(text, ContextShapes[i..]) == ContextPhone(text, ContextShapes)
    {
      var m := ContextMatch(text, ContextShapes[i]);
      if m.Some? {
        var clean := DigitsOf(m.value);
        if 8 <= |clean| <= 15 {
          phone := Some(clean);
          return;
        }
      }
      assert ContextShapes[i..][1..] == ContextShapes[i + 1..];
      i := i + 1;
    }
    i := 0;
    while i < |StandaloneShapes|
      invariant i <= |StandaloneShapes|
      invariant phone.None?
      invariant StandalonePhone(text, StandaloneShapes[i..]) == FoundPhone(text)
    {
      var matches := MatchesFrom(text, StandaloneShapes[i], 0);
      var k := 0;
      while k < |matches|
        invariant k <= |matches|
        invariant FirstValid(matches[k..]) == FirstValid(matches)
      {
        var clean := DigitsOf(matches[k]);
        if 8 <= |clean| <= 15 {
          phone := Some(clean);
          return;
        }
        assert matches[k..][1..] == matches[k + 1..];
        k := k + 1;
      }
      assert StandaloneShapes[i..][1..] == StandaloneShapes[i + 1..];
      i := i + 1;
    }
  }

  // ---------------------------------------------------------------- address

  const AddressPhrases: seq<string> := ["i live at ", "my address is ", "located at "]

  function AddressOf(text: string): Option<string>
  {
    match FirstPhraseRun(text, AddressPhrases, AddressChars)
    case Some(c) => Some(Trim(c))
    case None => None
  }

  method ExtractAddress(text: string) returns (address: Option<string>)
    ensures address == AddressOf(text)
  {
    address := None;
    var i := 0;
    while i < |AddressPhrases|
      invariant i <= |AddressPhrases|
      invariant FirstPhraseRun(text, AddressPhrases[i..], AddressChars) == FirstPhraseRun(text, AddressPhrases, AddressChars)
    {
      var m := PhraseRun(text, AddressPhrases[i], AddressChars);
      if m.Some? {
        address := Some(Trim(m.value));
        return;
      }
      assert AddressPhrases[i..][1..] == AddressPhrases[i + 1..];
      i := i + 1;
    }
  }

  /** One of `phrases` ends, ignoring case, right before position `b`. */
  predicate PhraseBefore(s: string, phrases: seq<string>, b: nat)
  {
    exists i :: 0 <= i < |phrases| && |phrases[i]| <= b && LiteralAt(s, b - |phrases[i]|, phrases[i])
  }

  /** `c` is the text from `b` to `e`, right after one of `phrases`, and `e`
      is the first position from `b` on outside the class, or the end. */
  predicate CapturedRun(s: string, phrases: seq<string>, cls: CharClass, b: nat, e: nat, c: string)
  {
    b < e <= |s| && PhraseBefore(s, phrases, b) && c == s[b..e] && (e == |s| || !InClass(s[e], cls))
  }

  /** The capture of one phrase pattern follows that phrase and runs to the
      first character outside the class or to the end. */
  lemma PhraseRunMaximal(s: string, phrase: string, cls: CharClass)
    ensures PhraseRun(s, phrase, cls).Some? ==>
      exists b: nat, e: nat :: CapturedRun(s, [phrase], cls, b, e, PhraseRun(s, phrase, cls).value)
  {
    if PhraseRun(s, phrase, cls).Some? {
      var f := FirstSome(0, |s| + 1, (p: nat) => PhraseRunAt(s, phrase, cls, p));
      var p := f.value.0;
      var b := p + |phrase|;
      var e := RunEnd(s, b, cls);
      assert LiteralAt(s, b - |[phrase][0]|, [phrase][0]);
      assert CapturedRun(s, [phrase], cls, b, e, PhraseRun(s, phrase, cls).value);
    }
  }

  /** A phrase found before `b` is still found among more phrases. */
  lemma PhraseBeforeWider(s: string, phrases: seq<string>, more: seq<string>, b: nat)
    requires PhraseBefore(s, phrases, b) && forall w :: w in phrases ==> w in more
    ensures PhraseBefore(s, more, b)
  {
    var i :| 0 <= i < |phrases| && |phrases[i]| <= b && LiteralAt(s, b - |phrases[i]|, phrases[i]);
    assert phrases[i] in more;
    var j :| 0 <= j < |more| && more[j] == phrases[i];
  }

  /** A capture is the whole run of `cls` characters that follows a matched
      phrase: it ends at the first character outside the class or at the end. */
  lemma {:induction false} FirstPhraseRunMaximal(s: string, phrases: seq<string>, cls: CharClass)
    ensures FirstPhraseRun(s, phrases, cls).Some? ==>
      exists b: nat, e: nat :: CapturedRun(s, phrases, cls, b, e, FirstPhraseRun(s, phrases, cls).value)
    decreases |phrases|
  {
    if phrases != [] {
      var r := FirstPhraseRun(s, phrases, cls);
      var sub := if PhraseRun(s, phrases[0], cls).Some? then [phrases[0]] else phrases[1..];
      if PhraseRun(s, phrases[0], cls).Some? {
        PhraseRunMaximal(s, phrases[0], cls);
      } else {
        FirstPhraseRunMaximal(s, phrases[1..], cls);
      }
      if r.Some? {
        var b: nat, e: nat :| CapturedRun(s, sub, cls, b, e, r.value);
        PhraseBeforeWider(s, sub, phrases, b);
        assert CapturedRun(s, phrases, cls, b, e, r.value);
      }
    }
  }

  /** The address is the text after "i live at ", "my address is " or
      "located at ", through commas and every other character up to the next
      `.`, `!` or `?` or the end of the text, trimmed: so it stops before the
      first sentence end and has no white space at either end. */
  lemma AddressIsOneClause(text: string)
    ensures AddressOf(text).Some? ==>
      exists b: nat, e: nat :: b < e <= |text| && PhraseBefore(text, AddressPhrases, b)
        && AddressOf(text).value == Trim(text[b..e])
        && (e == |text| || text[e] == '.' || text[e] == '!' || text[e] == '?')
    ensures AddressOf(text).Some? ==>
      var a := AddressOf(text).value;
      '.' !in a && '!' !in a && '?' !in a && Trim(a) == a
  {
    var m := FirstPhraseRun(text, AddressPhrases, AddressChars);
    if m.Some? {
      TrimmedClause(m.value);
      FirstPhraseRunMaximal(text, AddressPhrases, AddressChars);
    }
  }

  lemma TrimmedClause(c: string)
    requires forall k :: 0 <= k < |c| ==> InClass(c[k], AddressChars)
    ensures var a := Trim(c); '.' !in a && '!' !in a && '?' !in a && Trim(a) == a
  {
    var a := Trim(c);
    TrimShape(JsSpace, c);
    TrimIdempotent(JsSpace, c);
    var i := |c| - |TrimStart(JsSpace, c)|;
    forall k | 0 <= k < |a|
      ensures InClass(a[k], AddressChars)
    {
      assert a[k] == c[i + k];
    }
  }

  /** The sample the profile form suggests saying: what comes before the
      address, its phrase, and the rest of the text, the rest in four clauses. */
  const SampleIntro: string := "My name is John Smith, I am 65 years old, "
  const SampleRest: string := "123 Main Street, " + "I enjoy reading and gardening, "
    + "my emergency contact is Mary Smith, " + "I speak English and Mandarin"
  const SampleUtterance: string := SampleIntro + "I live at " + SampleRest

  /** Every character of `s` is in the class. */
  predicate AllIn(s: string, cls: CharClass)
  {
    forall k :: 0 <= k < |s| ==> InClass(s[k], cls)
  }

  lemma AllInConcat(a: string, b: string, cls: CharClass)
    requires AllIn(a, cls) && AllIn(b, cls)
    ensures AllIn(a + b, cls)
  {
    forall k | 0 <= k < |a + b|
      ensures InClass((a + b)[k], cls)
    {
      if k >= |a| {
        assert (a + b)[k] == b[k - |a|];
      }
    }
  }

  /** The rest of the sample holds no `.`, `!` or `?`. */
  lemma SampleRestOneClause()
    ensures AllIn(SampleRest, AddressChars)
  {
    var a, b, c, d := "123 Main Street, ", "I enjoy reading and gardening, ",
      "my emergency contact is Mary Smith, ", "I speak English and Mandarin";
    assert AllIn(a, AddressChars) && AllIn(b, AddressChars) && AllIn(c, AddressChars) && AllIn(d, AddressChars);
    AllInConcat(a, b, AddressChars);
    AllInConcat(a + b, c, AddressChars);
    AllInConcat(a + b + c, d, AddressChars);
  }

  /** The text before the address has a single `l`, in "old", followed by `d`. */
  lemma SampleIntroLetters()
    ensures |SampleIntro| == 42
    ensures forall j :: 0 <= j < |SampleIntro| && LowerChar(SampleIntro[j]) == 'l' ==> j == 38
    ensures SampleIntro[39] == 'd'
  {
  }

  /** Before position 42 no `l` of the sample is followed by an `i`. */
  lemma SampleLetterPair(k: nat)
    requires k < 42
    ensures LowerChar(SampleUtterance[k + 2]) != 'l' || LowerChar(SampleUtterance[k + 3]) != 'i'
  {
    var s, head := SampleUtterance, SampleIntro + "I live at ";
    SampleIntroLetters();
    assert s[k + 2] == head[k + 2] && s[k + 3] == head[k + 3];
    if k + 2 < 42 {
      assert head[k + 2] == SampleIntro[k + 2];
      assert head[39] == SampleIntro[39];
    } else {
      assert head[k + 2] == "I live at "[k + 2 - 42];
    }
  }

  /** "i live at " does not match the sample at a position before 42: its
      `l` would have to be the one in "old", which a `d` follows. */
  lemma SampleNoMatchAt(k: nat)
    requires k < 42
    ensures !LiteralAt(SampleUtterance, k, AddressPhrases[0])
  {
    var lit := AddressPhrases[0];
    SampleLetterPair(k);
    LiteralAtChar(SampleUtterance, k, lit, 2);
    LiteralAtChar(SampleUtterance, k, lit, 3);
  }

  lemma SampleNoEarlierMatch()
    ensures forall k: nat :: k < 42 ==> PhraseRunAt(SampleUtterance, AddressPhrases[0], AddressChars, k).None?
  {
    forall k: nat | k < 42
      ensures PhraseRunAt(SampleUtterance, AddressPhrases[0], AddressChars, k).None?
    {
      SampleNoMatchAt(k);
    }
  }

  /** At position 42 "I live at " matches, and the run after it is the rest
      of the sample. */
  lemma SampleMatchAt42()
    ensures PhraseRunAt(SampleUtterance, AddressPhrases[0], AddressChars, 42) == Some(SampleRest)
  {
    var s := SampleUtterance;
    SamplePhraseAt42();
    SampleRunToEnd();
    assert |AddressPhrases[0]| == 10;
    assert s[52..|s|] == s[52..];
    assert PhraseRunAt(s, AddressPhrases[0], AddressChars, 42) == Some(s[52..|s|]);
  }

  lemma SamplePhraseAt42()
    ensures LiteralAt(SampleUtterance, 42, AddressPhrases[0])
  {
    var s, head := SampleUtterance, SampleIntro + "I live at ";
    assert |SampleIntro| == 42;
    assert s[42..52] == head[42..52] == "I live at ";
    assert Lower("I live at ") == AddressPhrases[0];
  }

  /** After the phrase, the run of non-terminators reaches the end. */
  lemma SampleRunToEnd()
    ensures |SampleUtterance| > 52 && SampleUtterance[52..] == SampleRest
    ensures InClass(SampleUtterance[52], AddressChars)
    ensures RunEnd(SampleUtterance, 52, AddressChars) == |SampleUtterance|
  {
    var s, head := SampleUtterance, SampleIntro + "I live at ";
    assert |SampleIntro| == 42 && |head| == 52;
    assert s[52..] == SampleRest;
    SampleRestOneClause();
    forall k | 52 <= k < |s|
      ensures InClass(s[k], AddressChars)
    {
      assert s[k] == SampleRest[k - 52];
    }
  }

  /** On the sample, the address runs from after "I live at " through every
      comma to the end of the text. */
  lemma SampleAddress()
    ensures AddressOf(SampleUtterance) == Some(SampleRest)
  {
    var s := SampleUtterance;
    SampleNoEarlierMatch();
    SampleMatchAt42();
    PhraseRunFirstAt(s, AddressPhrases[0], AddressChars, 42);
    assert FirstPhraseRun(s, AddressPhrases, AddressChars) == Some(SampleRest);
    SampleRestTrimmed();
  }

  /** The rest of the sample neither starts nor ends with white space. */
  lemma SampleRestTrimmed()
    ensures Trim(SampleRest) == SampleRest
  {
    assert SampleRest[0] == '1' && SampleRest[|SampleRest| - 1] == 'n';
    assert TrimStart(JsSpace, SampleRest) == SampleRest;
    assert TrimEnd(JsSpace, SampleRest) == SampleRest;
  }

  /** The sample agrees with its first piece up to position 42. */
  lemma SampleStartsWithIntro()
    ensures |SampleIntro| == 42 && |SampleUtterance| > 42
    ensures forall j :: 0 <= j < 42 ==> SampleUtterance[j] == SampleIntro[j]
  {
    var head := SampleIntro + "I live at ";
    assert |SampleIntro| == 42;
    forall j | 0 <= j < 42
      ensures SampleUtterance[j] == SampleIntro[j]
    {
      assert SampleUtterance[j] == head[j];
    }
  }

  /** A literal matches where each of its characters is the lowered text. */
  lemma LiteralAtByChars(s: string, p: nat, lit: string)
    requires p + |lit| <= |s|
    requires forall j :: 0 <= j < |lit| ==> LowerChar(s[p + j]) == lit[j]
    ensures LiteralAt(s, p, lit)
  {
    assert Lower(s[p..p + |lit|]) == lit;
  }

  /** A slice is the string its characters spell. */
  lemma SliceByChars(s: string, p: nat, t: string)
    requires p + |t| <= |s|
    requires forall j :: 0 <= j < |t| ==> s[p + j] == t[j]
    ensures s[p..p + |t|] == t
  {
  }

  /** Where the sample's first piece says "My name is John Smith,". */
  lemma SampleIntroName()
    ensures forall j :: 0 <= j < 11 ==> LowerChar(SampleIntro[j]) == NamePhrases[0][j]
    ensures forall j :: 0 <= j < 10 ==> SampleIntro[11 + j] == "John Smith"[j]
    ensures forall j :: 11 <= j < 21 ==> InClass(SampleIntro[j], NameChars)
    ensures !InClass(SampleIntro[21], NameChars)
  {
  }

  /** Where the phrase matches and a run of the class follows up to a character
      outside it, the capture is exactly that run. */
  lemma PhraseRunAtCapture(s: string, phrase: string, cls: CharClass, p: nat, e: nat)
    requires LiteralAt(s, p, phrase) && p + |phrase| < e < |s|
    requires forall k :: p + |phrase| <= k < e ==> InClass(s[k], cls)
    requires !InClass(s[e], cls)
    ensures PhraseRunAt(s, phrase, cls, p) == Some(s[p + |phrase|..e])
  {
    assert RunEnd(s, p + |phrase|, cls) == e;
  }

  /** On the sample, "my name is " matches at the start and captures the
      letters and spaces up to the first comma. */
  lemma SampleNameRun()
    ensures PhraseRunAt(SampleUtterance, NamePhrases[0], NameChars, 0) == Some("John Smith")
  {
    var s := SampleUtterance;
    SampleStartsWithIntro();
    SampleIntroName();
    LiteralAtByChars(s, 0, NamePhrases[0]);
    SliceByChars(s, 11, "John Smith");
    PhraseRunAtCapture(s, NamePhrases[0], NameChars, 0, 21);
  }

  /** A string with no white space at either end is its own trim. */
  lemma TrimUnchanged(c: string)
    requires c != [] && !IsSpace(JsSpace, c[0]) && !IsSpace(JsSpace, c[|c| - 1])
    ensures Trim(c) == c
  {
  }

  /** Two space-free words joined by one space split back into the two. */
  lemma SplitTwoWords(a: string, b: string)
    requires ' ' !in a && ' ' !in b
    ensures Split(a + " " + b, ' ') == [a, b]
  {
    var c := a + " " + b;
    assert c[|a|] == ' ' && c[..|a|] == a && c[|a| + 1..] == b;
    assert FirstIndexOf(c, ' ') == |a|;
  }

  /** A first word and a last word, neither holding a space, joined by one
      space, are taken apart into exactly those two names. */
  lemma NamePartsTwoWords(first: string, last: string)
    requires ' ' !in first && ' ' !in last && first != [] && last != []
    requires !IsSpace(JsSpace, first[0]) && !IsSpace(JsSpace, last[|last| - 1])
    ensures NameParts(first + " " + last) == (Some(first), Some(last))
  {
    var c := first + " " + last;
    assert c[0] == first[0] && c[|c| - 1] == last[|last| - 1];
    TrimUnchanged(c);
    SplitTwoWords(first, last);
    assert [first, last][1..] == [last];
  }

  /** "John Smith" splits into the first name "John" and the last name "Smith". */
  lemma SampleNameParts()
    ensures NameParts("John Smith") == (Some("John"), Some("Smith"))
  {
    assert "John Smith" == "John" + " " + "Smith";
    NamePartsTwoWords("John", "Smith");
  }

  /** On the sample, the name is John Smith: "John" and "Smith". */
  lemma SampleName()
    ensures NameOf(SampleUtterance) == (Some("John"), Some("Smith"))
  {
    var s := SampleUtterance;
    SampleNameRun();
    PhraseRunFirstAt(s, NamePhrases[0], NameChars, 0);
    assert FirstPhraseRun(s, NamePhrases, NameChars) == Some("John Smith");
    SampleNameParts();
  }

  /** The first age pattern's leftmost match gives its digits. */
  lemma AgeDigitsFirstAt(s: string, pat: AgePattern, p: nat)
    requires p <= |s|
    requires forall k: nat :: k < p ==> AgeDigitsAt(s, pat, k).None?
    requires AgeDigitsAt(s, pat, p).Some?
    ensures AgeDigits(s, pat) == AgeDigitsAt(s, pat, p)
  {
    var f := (q: nat) => AgeDigitsAt(s, pat, q);
    var r := FirstSome(0, |s| + 1, f);
    assert f(p).Some?;
    assert forall k: nat :: k < p ==> f(k).None?;
    assert r.Some? && r.value.0 == p;
  }

  /** Before position 23 no `i` of the sample is followed by a space. */
  lemma SampleIntroIs()
    ensures forall j :: 0 <= j < 23 && LowerChar(SampleIntro[j]) == 'i' ==> SampleIntro[j + 1] != ' '
  {
  }

  /** "i am " does not match the sample before position 23. */
  lemma SampleNoAgeBefore(k: nat)
    requires k < 23
    ensures AgeDigitsAt(SampleUtterance, AgePatterns[0], k).None?
  {
    var lit := AgePatterns[0].before;
    SampleStartsWithIntro();
    SampleIntroIs();
    LiteralAtChar(SampleUtterance, k, lit, 0);
    LiteralAtChar(SampleUtterance, k, lit, 1);
  }

  /** Where the sample's first piece says "I am 65 years old". */
  lemma SampleIntroAge()
    ensures forall j :: 0 <= j < 5 ==> LowerChar(SampleIntro[23 + j]) == AgePatterns[0].before[j]
    ensures forall j :: 0 <= j < 2 ==> SampleIntro[28 + j] == "65"[j]
    ensures forall j :: 0 <= j < 10 ==> LowerChar(SampleIntro[30 + j]) == AgePatterns[0].after[j]
  {
  }

  /** At position 23 "I am 65 years old" matches with the digits "65". */
  lemma SampleAgeAt23()
    ensures AgeDigitsAt(SampleUtterance, AgePatterns[0], 23) == Some("65")
  {
    var s := SampleUtterance;
    SampleStartsWithIntro();
    SampleIntroAge();
    LiteralAtByChars(s, 23, AgePatterns[0].before);
    SliceByChars(s, 28, "65");
    LiteralAtByChars(s, 30, AgePatterns[0].after);
    assert AllDigits("65");
  }

  /** On the sample, the age is 65, with 1 January of `year - 65` as the date
      of birth. */
  lemma SampleAge(year: int)
    ensures AgeOf(SampleUtterance, year) == (Some("65"), Some(IntToString(year - 65) + "-01-01"))
  {
    var s := SampleUtterance;
    forall k: nat | k < 23
      ensures AgeDigitsAt(s, AgePatterns[0], k).None?
    {
      SampleNoAgeBefore(k);
    }
    SampleAgeAt23();
    AgeDigitsFirstAt(s, AgePatterns[0], 23);
    assert FirstAge(s, AgePatterns) == Some("65");
    assert "65"[..1] == "6";
    assert ParseDigits("65") == 65;
    assert NatToString(65) == "65";
  }

  // ---------------------------------------------------------------- emergency contact

  /** `.*?(\d{8,})` after a name that ended at `r`: the name and the first run of
      at least eight digits on the rest of the line. */
  function DigitsAfterName(s: string, q1: nat, r: nat): (m: Option<(string, string)>)
    requires q1 <= r <= |s|
    ensures m.Some? ==> |m.value.1| >= 8 && AllDigits(m.value.1)
  {
    Found(FirstSome(r, LineEnd(s, r) + 1, (q2: nat) =>
      if q2 <= |s| && RunEnd(s, q2, DigitChars) >= q2 + 8 then Some((s[q1..r], s[q2..RunEnd(s, q2, DigitChars)]))
      else None))
  }

  /** `([a-zA-Z\s]+).*?(\d{8,})` tried at `q1`: the name run gives characters back,
      longest first, until a long enough digit run follows on its line. */
  function NameAndDigitsAt(s: string, q1: nat): (m: Option<(string, string)>)
    ensures m.Some? ==> |m.value.1| >= 8 && AllDigits(m.value.1)
  {
    if q1 < |s| && InClass(s[q1], NameChars) then
      var n := RunEnd(s, q1, NameChars);
      Found(LastSome(q1 + 1, n + 1, (r: nat) => if q1 <= r <= |s| then DigitsAfterName(s, q1, r) else None))
    else None
  }

  /** The two emergency patterns: a name and a number after "emergency contact",
      or a name alone after "in case of emergency". */
  datatype EmergencyPattern = ContactWithNumber | InCaseOfEmergency

  function EmergencyAt(s: string, pat: EmergencyPattern, p: nat): (m: Option<(string, Option<string>)>)
    ensures m.Some? && m.value.1.Some? ==> |m.value.1.value| >= 8 && AllDigits(m.value.1.value)
  {
    match pat
    case ContactWithNumber =>
      if LiteralAt(s, p, "emergency contact") then
        var e := p + |"emergency contact"|;
        var m := Found(FirstSome(e, LineEnd(s, e) + 1, (q1: nat) => NameAndDigitsAt(s, q1)));
        if m.Some? then Some((m.value.0, Some(m.value.1))) else None
      else None
    case InCaseOfEmergency =>
      if LiteralAt(s, p, "in case of emergency") then
        var e := p + |"in case of emergency"|;
        Found(FirstSome(e, LineEnd(s, e) + 1, (q1: nat) =>
          if q1 < |s| && InClass(s[q1], NameChars) then Some((s[q1..RunEnd(s, q1, NameChars)], None)) else None))
      else None
  }

  function EmergencyMatch(s: string, pat: EmergencyPattern): (m: Option<(string, Option<string>)>)
    ensures m.Some? && m.value.1.Some? ==> |m.value.1.value| >= 8 && AllDigits(m.value.1.value)
  {
    Found(FirstSome(0, |s| + 1, (p: nat) => EmergencyAt(s, pat, p)))
  }

  const EmergencyPatterns: seq<EmergencyPattern> := [ContactWithNumber, InCaseOfEmergency]

  function FirstEmergency(text: string, pats: seq<EmergencyPattern>): (m: Option<(string, Option<string>)>)
    ensures m.Some? && m.value.1.Some? ==> |m.value.1.value| >= 8 && AllDigits(m.value.1.value)
    decreases |pats|
  {
    if pats == [] then None
    else if EmergencyMatch(text, pats[0]).Some? then EmergencyMatch(text, pats[0])
    else FirstEmergency(text, pats[1..])
  }

  /** The emergency contact's name, trimmed, and the number found with it, if any. */
  function EmergencyOf(text: string): (Option<string>, Option<string>)
  {
    var m := FirstEmergency(text, EmergencyPatterns);
    if m.Some? then (Some(Trim(m.value.0)), m.value.1) else (None, None)
  }

  method ExtractEmergencyContact(text: string) returns (name: Option<string>, phone: Option<string>)
    ensures (name, phone) == EmergencyOf(text)
  {
    name, phone := None, None;
    var i := 0;
    while i < |EmergencyPatterns|
      invariant i <= |EmergencyPatterns|
      invariant FirstEmergency(text, EmergencyPatterns[i..]) == FirstEmergency(text, EmergencyPatterns)
    {
      var m := EmergencyMatch(text, EmergencyPatterns[i]);
      if m.Some? {
        name := Some(Trim(m.value.0));
        if m.value.1.Some? {
          phone := m.value.1;
        }
        return;
      }
      assert EmergencyPatterns[i..][1..] == EmergencyPatterns[i + 1..];
      i := i + 1;
    }
  }

  /** An emergency phone is only ever set next to a name, and is a run of at least
      eight digits. */
  lemma EmergencyPhoneIsDigits(text: string)
    ensures EmergencyOf(text).1.Some? ==>
      EmergencyOf(text).0.Some? && |EmergencyOf(text).1.value| >= 8 && AllDigits(EmergencyOf(text).1.value)
  {
  }

  // ---------------------------------------------------------------- keyword lists

  const InterestKeywords: seq<string> :=
    ["reading", "walking", "cooking", "gardening", "painting", "music", "dancing",
     "swimming", "yoga", "chess", "cards", "movies", "travel", "photography",
     "knitting", "crafts", "singing", "exercise", "meditation", "baking"]

  const ActivityKeywords: seq<(string, seq<string>)> :=
    [("indoor", ["indoor", "inside", "home"]),
     ("outdoor", ["outdoor", "outside", "garden", "park"]),
     ("social", ["social", "group", "people", "friends"]),
     ("quiet", ["quiet", "peaceful", "calm", "solo"])]

  const Languages: seq<string> :=
    ["english", "mandarin", "chinese", "malay", "tamil", "hindi", "spanish", "french"]

  /** The words of `words` that occur in `lt`, in list order. */
  function Mentioned(lt: string, words: seq<string>): seq<string>
  {
    Filter(words, w => Contains(lt, w))
  }

  /** The categories one of whose keywords occurs in `lt`, in list order. */
  function CategoriesMentioned(lt: string, cats: seq<(string, seq<string>)>): (found: seq<string>)
    ensures |found| <= |cats|
  {
    if cats == [] then []
    else
      var here := if exists w :: w in cats[0].1 && Contains(lt, w) then [cats[0].0] else [];
      here + CategoriesMentioned(lt, cats[1..])
  }

  /** A list field holds the JSON text of the list, and is absent when the list is empty. */
  function ListValue(found: seq<string>): Option<string>
  {
    if found == [] then None else Some(StringifyStrings(found))
  }

  /** A word is mentioned exactly when it is in the list and occurs in the text;
      the mentioned words keep the list's order and have no repeats. */
  lemma MentionedMeaning(lt: string, words: seq<string>)
    requires Distinct(words)
    ensures forall w :: w in Mentioned(lt, words) <==> w in words && Contains(lt, w)
    ensures IsSubsequence(Mentioned(lt, words), words)
    ensures Distinct(Mentioned(lt, words))
  {
    FilterIsSubsequence(words, w => Contains(lt, w));
    FilterDistinct(words, w => Contains(lt, w));
  }

  /** A category is found exactly when one of its keywords occurs in the text. */
  lemma {:induction false} CategoriesMentionedMeaning(lt: string, cats: seq<(string, seq<string>)>, c: string)
    ensures c in CategoriesMentioned(lt, cats) <==>
      exists i :: 0 <= i < |cats| && cats[i].0 == c && exists w :: w in cats[i].1 && Contains(lt, w)
  {
    if cats != [] {
      CategoriesMentionedMeaning(lt, cats[1..], c);
      if c in CategoriesMentioned(lt, cats) && c != cats[0].0 {
        var i :| 0 <= i < |cats[1..]| && cats[1..][i].0 == c && exists w :: w in cats[1..][i].1 && Contains(lt, w);
        assert cats[i + 1] == cats[1..][i];
      }
      if exists i :: 0 <= i < |cats| && cats[i].0 == c && exists w :: w in cats[i].1 && Contains(lt, w) {
        var i :| 0 <= i < |cats| && cats[i].0 == c && exists w :: w in cats[i].1 && Contains(lt, w);
        if i > 0 {
          assert cats[1..][i - 1] == cats[i];
        }
      }
    }
  }

  /** A list value reads back, with the JSON reader, as the words found. */
  lemma ListValueRoundTrip(found: seq<string>)
    ensures ListValue(found).Some? <==> found != []
    ensures ListValue(found).Some? ==> ParseStringArray(ListValue(found).value) == Some(found)
  {
    if found != [] {
      ParseStringifyStrings(found);
    }
  }

  // ---------------------------------------------------------------- gender, bio, mobility

  /** The values the profile form's gender and mobility selects offer. */
  const GenderOptions: set<string> := {"male", "female", "non-binary", "prefer-not-to-say"}
  const MobilityOptions: set<string> := {"high", "moderate", "low", "wheelchair"}

  /** The first gender whose phrases occur in the lowered text. */
  function GenderOf(lt: string): (g: Option<string>)
    ensures g.Some? ==> g.value in GenderOptions
  {
    if Contains(lt, "i am a man") || Contains(lt, "i'm a man") || Contains(lt, "i am male") then Some("male")
    else if Contains(lt, "i am a woman") || Contains(lt, "i'm a woman") || Contains(lt, "i am female") then Some("female")
    else if Contains(lt, "non-binary") || Contains(lt, "non binary") then Some("non-binary")
    else if Contains(lt, "prefer not to say") then Some("prefer-not-to-say")
    else None
  }

  /** The first mobility level whose phrases occur in the lowered text. */
  function MobilityOf(lt: string): (m: Option<string>)
    ensures m.Some? ==> m.value in MobilityOptions
  {
    if Contains(lt, "wheelchair") then Some("wheelchair")
    else if Contains(lt, "limited mobility") || Contains(lt, "difficulty walking") then Some("low")
    else if Contains(lt, "moderate") || Contains(lt, "some mobility") then Some("moderate")
    else if Contains(lt, "active") || Contains(lt, "good mobility") then Some("high")
    else None
  }

  /** A reference reading of the two if-chains: a table of categories, each
      with its phrases, in priority order. */
  const GenderTable: seq<(string, seq<string>)> := [
    ("male", ["i am a man", "i'm a man", "i am male"]),
    ("female", ["i am a woman", "i'm a woman", "i am female"]),
    ("non-binary", ["non-binary", "non binary"]),
    ("prefer-not-to-say", ["prefer not to say"])
  ]
  const MobilityTable: seq<(string, seq<string>)> := [
    ("wheelchair", ["wheelchair"]),
    ("low", ["limited mobility", "difficulty walking"]),
    ("moderate", ["moderate", "some mobility"]),
    ("high", ["active", "good mobility"])
  ]

  /** Some phrase of the list occurs in the lowered text. */
  predicate AnyPhrase(lt: string, phrases: seq<string>)
  {
    exists w :: w in phrases && Contains(lt, w)
  }

  /** The category of the first table row with a phrase in the text. */
  function FirstCategory(lt: string, table: seq<(string, seq<string>)>): Option<string>
  {
    if table == [] then None
    else if AnyPhrase(lt, table[0].1) then Some(table[0].0)
    else FirstCategory(lt, table[1..])
  }

  /** The first hit wins: the result is the category of a row with a phrase in
      the text and no earlier row has one; with no hit anywhere there is none. */
  lemma {:induction false} FirstCategoryMeaning(lt: string, table: seq<(string, seq<string>)>)
    ensures FirstCategory(lt, table).None? <==> forall i :: 0 <= i < |table| ==> !AnyPhrase(lt, table[i].1)
    ensures FirstCategory(lt, table).Some? ==>
      exists i :: 0 <= i < |table| && table[i].0 == FirstCategory(lt, table).value
        && AnyPhrase(lt, table[i].1) && forall j :: 0 <= j < i ==> !AnyPhrase(lt, table[j].1)
  {
    if table != [] && !AnyPhrase(lt, table[0].1) {
      var rest := table[1..];
      FirstCategoryMeaning(lt, rest);
      forall i | 1 <= i < |table| ensures table[i] == rest[i - 1] {}
      if FirstCategory(lt, rest).Some? {
        var i :| 0 <= i < |rest| && rest[i].0 == FirstCategory(lt, rest).value
          && AnyPhrase(lt, rest[i].1) && forall j :: 0 <= j < i ==> !AnyPhrase(lt, rest[j].1);
        assert forall j :: 0 <= j < i + 1 ==> !AnyPhrase(lt, table[j].1) by {
          forall j | 0 <= j < i + 1 ensures !AnyPhrase(lt, table[j].1) {
            if j > 0 { assert table[j] == rest[j - 1]; }
          }
        }
        assert table[i + 1] == rest[i];
      }
    }
  }

  /** Two phrases, read through the table. */
  lemma AnyPhraseOfTwo(lt: string, a: string, b: string)
    ensures AnyPhrase(lt, [a, b]) <==> Contains(lt, a) || Contains(lt, b)
  {
    if Contains(lt, a) { assert a in [a, b]; }
    if Contains(lt, b) { assert b in [a, b]; }
  }

  /** Three phrases, read through the table. */
  lemma AnyPhraseOfThree(lt: string, a: string, b: string, c: string)
    ensures AnyPhrase(lt, [a, b, c]) <==> Contains(lt, a) || Contains(lt, b) || Contains(lt, c)
  {
    if Contains(lt, a) { assert a in [a, b, c]; }
    if Contains(lt, b) { assert b in [a, b, c]; }
    if Contains(lt, c) { assert c in [a, b, c]; }
  }

  /** The gender chain is the table read in priority order: male before
      female before non-binary before prefer-not-to-say. */
  lemma GenderPriority(lt: string)
    ensures GenderOf(lt) == FirstCategory(lt, GenderTable)
    ensures Contains(lt, "i am male") ==> GenderOf(lt) == Some("male")
    ensures GenderOf(lt) == Some("prefer-not-to-say") ==>
      !Contains(lt, "i am a man") && !Contains(lt, "i'm a man") && !Contains(lt, "i am male")
      && !Contains(lt, "i am a woman") && !Contains(lt, "i'm a woman") && !Contains(lt, "i am female")
      && !Contains(lt, "non-binary") && !Contains(lt, "non binary")
  {
    AnyPhraseOfThree(lt, "i am a man", "i'm a man", "i am male");
    AnyPhraseOfThree(lt, "i am a woman", "i'm a woman", "i am female");
    AnyPhraseOfTwo(lt, "non-binary", "non binary");
    assert AnyPhrase(lt, ["prefer not to say"]) <==> Contains(lt, "prefer not to say") by {
      if Contains(lt, "prefer not to say") { assert "prefer not to say" in ["prefer not to say"]; }
    }
    var t0 := GenderTable;
    var t1, t2, t3 := t0[1..], t0[2..], t0[3..];
    assert t1[1..] == t2 && t2[1..] == t3 && t3[1..] == [];
    assert FirstCategory(lt, t3) == (if AnyPhrase(lt, t3[0].1) then Some(t3[0].0) else None);
    assert FirstCategory(lt, t2) == (if AnyPhrase(lt, t2[0].1) then Some(t2[0].0) else FirstCategory(lt, t3));
    assert FirstCategory(lt, t1) == (if AnyPhrase(lt, t1[0].1) then Some(t1[0].0) else FirstCategory(lt, t2));
    assert FirstCategory(lt, t0) == (if AnyPhrase(lt, t0[0].1) then Some(t0[0].0) else FirstCategory(lt, t1));
  }

  /** The mobility chain is the table read in priority order: wheelchair
      before low before moderate before high. */
  lemma MobilityPriority(lt: string)
    ensures MobilityOf(lt) == FirstCategory(lt, MobilityTable)
    ensures Contains(lt, "wheelchair") ==> MobilityOf(lt) == Some("wheelchair")
    ensures MobilityOf(lt) == Some("high") ==>
      !Contains(lt, "wheelchair") && !Contains(lt, "limited mobility") && !Contains(lt, "difficulty walking")
      && !Contains(lt, "moderate") && !Contains(lt, "some mobility")
  {
    assert AnyPhrase(lt, ["wheelchair"]) <==> Contains(lt, "wheelchair") by {
      if Contains(lt, "wheelchair") { assert "wheelchair" in ["wheelchair"]; }
    }
    AnyPhraseOfTwo(lt, "limited mobility", "difficulty walking");
    AnyPhraseOfTwo(lt, "moderate", "some mobility");
    AnyPhraseOfTwo(lt, "active", "good mobility");
    var t0 := MobilityTable;
    var t1, t2, t3 := t0[1..], t0[2..], t0[3..];
    assert t1[1..] == t2 && t2[1..] == t3 && t3[1..] == [];
    assert FirstCategory(lt, t3) == (if AnyPhrase(lt, t3[0].1) then Some(t3[0].0) else None);
    assert FirstCategory(lt, t2) == (if AnyPhrase(lt, t2[0].1) then Some(t2[0].0) else FirstCategory(lt, t3));
    assert FirstCategory(lt, t1) == (if AnyPhrase(lt, t1[0].1) then Some(t1[0].0) else FirstCategory(lt, t2));
    assert FirstCategory(lt, t0) == (if AnyPhrase(lt, t0[0].1) then Some(t0[0].0) else FirstCategory(lt, t1));
  }

  /** The whole transcript becomes the bio when it talks about the speaker's likes. */
  function BioOf(text: string, lt: string): Option<string>
  {
    if Contains(lt, "about me") || Contains(lt, "i like") || Contains(lt, "i enjoy") then Some(text) else None
  }

  // ---------------------------------------------------------------- the whole reader

  /** Every field the reader finds in `text`, given the current `year`. Transcripts
      shorter than five characters once trimmed give nothing. */
  function HeuristicFields(text: string, year: int): Extracted
  {
    if |Trim(text)| < 5 then NothingFound else FieldsFound(text, year)
  }

  /** What the reader finds in a transcript long enough to read. */
  function FieldsFound(text: string, year: int): Extracted
  {
    var lt := Trim(Lower(text));
    var name, age, emergency := NameOf(text), AgeOf(text, year), EmergencyOf(text);
    Extracted(
      gender := GenderOf(lt),
      firstName := name.0, lastName := name.1,
      age := age.0, dateOfBirth := age.1,
      phoneNumber := FoundPhone(text),
      addressLine1 := AddressOf(text),
      bio := BioOf(text, lt),
      emergencyContactName := emergency.0, emergencyContactPhone := emergency.1,
      interests := ListValue(Mentioned(lt, InterestKeywords)),
      activityPreferences := ListValue(CategoriesMentioned(lt, ActivityKeywords)),
      languagePreferences := ListValue(Mentioned(lt, Languages)),
      mobilityLevel := MobilityOf(lt))
  }

  method ParseTranscriptionToFields(text: string, year: int) returns (found: Extracted)
    ensures found == HeuristicFields(text, year)
  {
    found := NothingFound;
    if |Trim(text)| < 5 {
      return;
    }
    var lt := Trim(Lower(text));
    found := found.(gender := GenderOf(lt));
    var first, last := ExtractName(text);
    found := found.(firstName := first, lastName := last);
    var age, dateOfBirth := ExtractAge(text, year);
    found := found.(age := age, dateOfBirth := dateOfBirth);
    var phone := ExtractPhone(text);
    found := found.(phoneNumber := phone);
    var address := ExtractAddress(text);
    found := found.(addressLine1 := address);
    found := found.(bio := BioOf(text, lt));
    var contactName, contactPhone := ExtractEmergencyContact(text);
    found := found.(emergencyContactName := contactName, emergencyContactPhone := contactPhone);
    found := found.(interests := ListValue(Mentioned(lt, InterestKeywords)));
    found := found.(activityPreferences := ListValue(CategoriesMentioned(lt, ActivityKeywords)));
    found := found.(languagePreferences := ListValue(Mentioned(lt, Languages)));
    found := found.(mobilityLevel := MobilityOf(lt));
  }

  // ---------------------------------------------------------------- what the reader promises

  /** A transcript shorter than five characters, once trimmed, fills in nothing. */
  lemma ShortTranscriptGivesNothing(text: string, year: int)
    requires |Trim(text)| < 5
    ensures Named(HeuristicFields(text, year)) == map[]
  {
    assert HeuristicFields(text, year) == NothingFound;
    NothingNamed();
  }

  lemma NothingNamed()
    ensures Named(NothingFound) == map[]
  {
    forall n
      ensures n !in Named(NothingFound)
    {
      assert Column(NothingFound, n) == None;
    }
  }

  /** The reader's phone number is made of 8 to 15 digits. */
  lemma ReaderPhone(text: string, year: int)
    ensures var h := HeuristicFields(text, year);
      h.phoneNumber.Some? ==> AllDigits(h.phoneNumber.value) && ValidPhone(h.phoneNumber.value)
  {
    FoundPhoneIsDigits(text);
  }

  /** The reader's age is the text of a number from 1 to 99, always comes with a
      date of birth, and the birth year is `year` minus that number. */
  lemma ReaderAge(text: string, year: int)
    ensures var h := HeuristicFields(text, year);
      (h.age.Some? <==> h.dateOfBirth.Some?)
      && (h.age.Some? ==> exists age: nat :: 0 < age < 100 && h.age.value == NatToString(age)
                                            && h.dateOfBirth.value == IntToString(year - age) + "-01-01")
  {
    AgeOfMeaning(text, year);
  }

  /** An emergency phone comes with an emergency name and has at least eight digits. */
  lemma ReaderEmergencyContact(text: string, year: int)
    ensures var h := HeuristicFields(text, year);
      h.emergencyContactPhone.Some? ==>
        h.emergencyContactName.Some? && |h.emergencyContactPhone.value| >= 8
        && AllDigits(h.emergencyContactPhone.value)
  {
    EmergencyPhoneIsDigits(text);
  }

  /** Gender and mobility are only ever set to a value the profile form offers. */
  lemma ReaderChoicesAreOptions(text: string, year: int)
    ensures var h := HeuristicFields(text, year);
      (h.gender.Some? ==> h.gender.value in GenderOptions)
      && (h.mobilityLevel.Some? ==> h.mobilityLevel.value in MobilityOptions)
  {
  }

  /** A keyword list is present exactly when one of its words is mentioned, and
      reads back as the mentioned words, in list order, each once. */
  lemma MentionedList(lt: string, words: seq<string>)
    requires Distinct(words)
    ensures ListValue(Mentioned(lt, words)).Some? <==> exists w :: w in words && Contains(lt, w)
    ensures ListValue(Mentioned(lt, words)).Some? ==>
      ParseStringArray(ListValue(Mentioned(lt, words)).value) == Some(Mentioned(lt, words))
      && Distinct(Mentioned(lt, words)) && IsSubsequence(Mentioned(lt, words), words)
  {
    var found := Mentioned(lt, words);
    MentionedMeaning(lt, words);
    ListValueRoundTrip(found);
    if exists w :: w in words && Contains(lt, w) {
      var w :| w in words && Contains(lt, w);
      assert w in found;
    }
    if found != [] {
      assert found[0] in found;
    }
  }

  lemma KeywordListsDistinct()
    ensures Distinct(InterestKeywords) && Distinct(Languages)
  {
  }

  /** The interests: present exactly when the transcript is long enough and
      mentions an interest, and then the mentioned interests in list order. */
  lemma ReaderInterests(text: string, year: int)
    ensures var h := HeuristicFields(text, year);
      var lt := Trim(Lower(text));
      (h.interests.Some? <==> |Trim(text)| >= 5 && exists w :: w in InterestKeywords && Contains(lt, w))
      && (h.interests.Some? ==>
            ParseStringArray(h.interests.value) == Some(Mentioned(lt, InterestKeywords))
            && Distinct(Mentioned(lt, InterestKeywords))
            && IsSubsequence(Mentioned(lt, InterestKeywords), InterestKeywords))
  {
    KeywordListsDistinct();
    MentionedList(Trim(Lower(text)), InterestKeywords);
  }

  /** The languages likewise. */
  lemma ReaderLanguages(text: string, year: int)
    ensures var h := HeuristicFields(text, year);
      var lt := Trim(Lower(text));
      (h.languagePreferences.Some? <==> |Trim(text)| >= 5 && exists w :: w in Languages && Contains(lt, w))
      && (h.languagePreferences.Some? ==>
            ParseStringArray(h.languagePreferences.value) == Some(Mentioned(lt, Languages))
            && Distinct(Mentioned(lt, Languages))
            && IsSubsequence(Mentioned(lt, Languages), Languages))
  {
    KeywordListsDistinct();
    MentionedList(Trim(Lower(text)), Languages);
  }
}
