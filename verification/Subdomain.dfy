/** The subdomain printed for a database, and when its first label is one that RFC 1035 allows. */
module Subdomain {
  import opened Wrappers

  // ---- Characters ----

  predicate Upper(c: char) { 'A' <= c <= 'Z' }

  predicate Lower(c: char) { 'a' <= c <= 'z' }

  predicate Digit(c: char) { '0' <= c <= '9' }

  predicate Letter(c: char) { Upper(c) || Lower(c) }

  predicate Alphanumeric(c: char) { Letter(c) || Digit(c) }

  predicate Ascii(c: char) { (c as int) < 128 }

  function AsciiLower(c: char): char {
    if Upper(c) then (c as int + 32) as char else c
  }

  /** Unicode lowercasing of one character, which may give several: on ASCII it is the usual one,
      and it never gives an ASCII capital. */
  ghost predicate Lowercases(lower: char -> string) {
    && (forall c :: Ascii(c) ==> lower(c) == [AsciiLower(c)])
    && (forall c, i :: 0 <= i < |lower(c)| ==> !Upper(lower(c)[i]))
  }

  // ---- The pipeline: lower, map, split, filter, join ----

  function LowerAll(lower: char -> string, s: string): string {
    if s == "" then "" else lower(s[0]) + LowerAll(lower, s[1..])
  }

  function Sanitize(c: char): char {
    if Alphanumeric(c) || c == '-' then c else '-'
  }

  function SanitizeAll(s: string): string {
    seq(|s|, i requires 0 <= i < |s| => Sanitize(s[i]))
  }

  function Split(s: string): (parts: seq<string>)
    ensures parts != []
  {
    if s == "" then [""]
    else
      var rest := Split(s[1..]);
      if s[0] == '-' then [""] + rest else [[s[0]] + rest[0]] + rest[1..]
  }

  function NonEmpty(parts: seq<string>): seq<string> {
    if parts == [] then []
    else (if parts[0] == "" then [] else [parts[0]]) + NonEmpty(parts[1..])
  }

  function Join(parts: seq<string>): string {
    if parts == [] then ""
    else if |parts| == 1 then parts[0]
    else parts[0] + ("-" + Join(parts[1..]))
  }

  function Collapse(s: string): string {
    Join(NonEmpty(Split(s)))
  }

  function Pipeline(lower: char -> string, name: string): string {
    Collapse(SanitizeAll(LowerAll(lower, name)))
  }

  function Truncate(s: string): string {
    if 48 < |s| then s[..48] else s
  }

  // ---- UUIDs ----

  predicate Hex(c: char) { Digit(c) || 'a' <= c <= 'f' }

  predicate Uuid(text: string) {
    |text| == 36 &&
    forall i :: 0 <= i < 36 ==> if i == 8 || i == 13 || i == 18 || i == 23 then text[i] == '-' else Hex(text[i])
  }

  function WithoutDashes(s: string): string {
    if s == "" then "" else (if s[0] == '-' then "" else [s[0]]) + WithoutDashes(s[1..])
  }

  lemma {:induction false} DashlessPrefix(s: string, n: nat)
    requires n <= |s| && forall i :: 0 <= i < n ==> s[i] != '-'
    ensures n <= |WithoutDashes(s)| && WithoutDashes(s)[..n] == s[..n]
  {
    if n > 0 {
      DashlessPrefix(s[1..], n - 1);
      assert WithoutDashes(s) == [s[0]] + WithoutDashes(s[1..]);
      assert s[..n] == [s[0]] + s[1..][..n - 1];
    }
  }

  function Id8(id: string): (id8: string)
    requires Uuid(id)
    ensures |id8| == 8 && id8 == id[..8] && forall i :: 0 <= i < 8 ==> Hex(id8[i])
  {
    DashlessPrefix(id, 8);
    WithoutDashes(id)[..8]
  }

  // ---- The subdomain ----

  function Label(lower: char -> string, name: string, id: string): string
    requires Uuid(id)
  {
    Truncate(Pipeline(lower, name)) + ("-" + Id8(id))
  }

  function GenerateSubdomain(lower: char -> string, name: string, id: string): string
    requires Uuid(id)
  {
    Label(lower, name, id) + ".db"
  }

  /** Section 2.3.1 of RFC 1035: a letter, then letters, digits and hyphens, then a letter or digit;
      section 2.3.4: at most 63 octets. */
  predicate ValidLabel(text: string) {
    && 1 <= |text| <= 63
    && Letter(text[0]) && Alphanumeric(text[|text| - 1])
    && forall i :: 0 <= i < |text| ==> Alphanumeric(text[i]) || text[i] == '-'
  }

  /** The first label of a domain name: what stands before the first dot. */
  function FirstLabel(domain: string): string {
    if domain == "" || domain[0] == '.' then "" else [domain[0]] + FirstLabel(domain[1..])
  }

  /** What creating a database checks of its name. */
  predicate ValidDbName(name: string) {
    && 1 <= |name| <= 63 && Letter(name[0])
    && forall i :: 0 <= i < |name| ==> Alphanumeric(name[i]) || name[i] == '_' || name[i] == '-'
  }

  // ---- Splitting and joining ----

  predicate Word(s: string) {
    s != "" && forall i :: 0 <= i < |s| ==> Alphanumeric(s[i])
  }

  ghost predicate Words(parts: seq<string>) {
    forall i :: 0 <= i < |parts| ==> Word(parts[i])
  }

  predicate Clean(s: string) {
    forall i :: 0 <= i < |s| ==> Alphanumeric(s[i]) || s[i] == '-'
  }

  function FirstAlphanumeric(s: string): Option<char> {
    if s == "" then None
    else if Alphanumeric(s[0]) then Some(s[0])
    else FirstAlphanumeric(s[1..])
  }

  lemma {:induction false} SplitGivesWords(s: string)
    requires Clean(s)
    ensures forall i, j :: 0 <= i < |Split(s)| && 0 <= j < |Split(s)[i]| ==> Alphanumeric(Split(s)[i][j])
  {
    if s != "" {
      SplitGivesWords(s[1..]);
      var rest := Split(s[1..]);
      if s[0] != '-' {
        assert forall i :: 0 < i < |Split(s)| ==> Split(s)[i] == rest[i];
        assert Split(s)[0] == [s[0]] + rest[0];
      } else {
        assert forall i :: 0 < i < |Split(s)| ==> Split(s)[i] == rest[i - 1];
      }
    }
  }

  lemma {:induction false} NonEmptyAreWords(parts: seq<string>)
    requires forall i, j :: 0 <= i < |parts| && 0 <= j < |parts[i]| ==> Alphanumeric(parts[i][j])
    ensures Words(NonEmpty(parts))
  {
    if parts != [] {
      assert forall i :: 0 <= i < |parts[1..]| ==> parts[1..][i] == parts[i + 1];
      NonEmptyAreWords(parts[1..]);
    }
  }

  // The first word starts with the first letter or digit.
  lemma {:induction false} FirstWord(s: string)
    requires Clean(s)
    ensures var words := NonEmpty(Split(s));
            if FirstAlphanumeric(s).None? then words == []
            else words != [] && words[0] != "" && words[0][0] == FirstAlphanumeric(s).value
  {
    if s != "" {
      FirstWord(s[1..]);
      var rest := Split(s[1..]);
      if s[0] == '-' {
        assert Split(s)[1..] == rest;
      } else {
        assert Split(s)[0] == [s[0]] + rest[0];
      }
    }
  }

  lemma {:induction false} JoinedWords(words: seq<string>)
    requires Words(words)
    ensures Clean(Join(words))
    ensures words == [] <==> Join(words) == ""
    ensures words != [] ==>
      Join(words)[0] == words[0][0] && Alphanumeric(Join(words)[|Join(words)| - 1])
  {
    if |words| > 1 {
      assert forall i :: 0 <= i < |words[1..]| ==> words[1..][i] == words[i + 1];
      JoinedWords(words[1..]);
      assert Word(words[0]);
    } else if |words| == 1 {
      assert Word(words[0]);
    }
  }

  lemma {:induction false} SplitWord(word: string)
    requires Word(word)
    ensures Split(word) == [word]
  {
    if |word| == 1 {
      assert word[1..] == "" && [word[0]] + "" == word;
      assert Split("") == [""];
    } else {
      SplitWord(word[1..]);
      assert word == [word[0]] + word[1..];
    }
  }

  lemma {:induction false} SplitAtHyphen(word: string, rest: string)
    requires Word(word)
    ensures Split(word + ("-" + rest)) == [word] + Split(rest)
  {
    var s := word + ("-" + rest);
    if |word| == 1 {
      assert s[1..] == "-" + rest && ("-" + rest)[1..] == rest;
      assert Split("-" + rest) == [""] + Split(rest);
      assert [s[0]] + "" == word;
    } else {
      assert s[1..] == word[1..] + ("-" + rest);
      SplitAtHyphen(word[1..], rest);
      assert word == [word[0]] + word[1..];
    }
  }

  lemma {:induction false} SplitUndoesJoin(words: seq<string>)
    requires Words(words) && words != []
    ensures Split(Join(words)) == words && NonEmpty(words) == words
  {
    assert Word(words[0]);
    if |words| == 1 {
      SplitWord(words[0]);
      assert words[1..] == [];
    } else {
      assert forall i :: 0 <= i < |words[1..]| ==> words[1..][i] == words[i + 1];
      SplitUndoesJoin(words[1..]);
      SplitAtHyphen(words[0], Join(words[1..]));
      assert words == [words[0]] + words[1..];
    }
  }

  lemma CollapseFacts(s: string)
    requires Clean(s)
    ensures Clean(Collapse(s)) && Collapse(Collapse(s)) == Collapse(s)
    ensures Collapse(s) == "" <==> FirstAlphanumeric(s).None?
    ensures Collapse(s) != "" ==>
      Collapse(s)[0] == FirstAlphanumeric(s).value && Alphanumeric(Collapse(s)[|Collapse(s)| - 1])
  {
    var words := NonEmpty(Split(s));
    SplitGivesWords(s);
    NonEmptyAreWords(Split(s));
    FirstWord(s);
    JoinedWords(words);
    if words != [] {
      SplitUndoesJoin(words);
    }
  }

  // ---- What collapsing keeps ----

  /** The letters and digits of a text, in order. */
  function Alphanumerics(s: string): string {
    if s == "" then "" else (if Alphanumeric(s[0]) then [s[0]] else "") + Alphanumerics(s[1..])
  }

  function Concat(parts: seq<string>): string {
    if parts == [] then "" else parts[0] + Concat(parts[1..])
  }

  lemma AlphanumericsStep(s: string)
    requires s != ""
    ensures Alphanumerics(s) == (if Alphanumeric(s[0]) then [s[0]] else "") + Alphanumerics(s[1..])
  {
  }

  lemma {:induction false} AlphanumericsConcat(a: string, b: string)
    ensures Alphanumerics(a + b) == Alphanumerics(a) + Alphanumerics(b)
  {
    if a == "" {
      assert a + b == b;
    } else {
      AlphanumericsConcat(a[1..], b);
      AlphanumericsStep(a);
      AlphanumericsStep(a + b);
      hide Alphanumerics, Alphanumeric;
      TailOfSum(a, b);
      Regroup(if Alphanumeric(a[0]) then [a[0]] else "", Alphanumerics(a[1..]), Alphanumerics(b));
    }
  }

  lemma TailOfSum(a: string, b: string)
    requires a != ""
    ensures (a + b)[1..] == a[1..] + b && (a + b)[0] == a[0]
  {
  }

  lemma Regroup(a: string, b: string, c: string)
    ensures a + (b + c) == a + b + c
  {
  }

  lemma {:induction false} WordIsItself(word: string)
    requires forall i :: 0 <= i < |word| ==> Alphanumeric(word[i])
    ensures Alphanumerics(word) == word
  {
    if word != "" {
      WordIsItself(word[1..]);
      assert word == [word[0]] + word[1..];
    }
  }

  lemma ConcatStep(first: string, rest: seq<string>)
    ensures Concat([first] + rest) == first + Concat(rest)
  {
    assert ([first] + rest)[1..] == rest;
  }

  lemma {:induction false} SplitKeepsLetters(s: string)
    requires Clean(s)
    ensures Concat(Split(s)) == Alphanumerics(s)
  {
    if s == "" {
      ConcatStep("", []);
      assert [""] + [] == [""];
    } else {
      SplitKeepsLetters(s[1..]);
      var rest := Split(s[1..]);
      assert rest == [rest[0]] + rest[1..];
      ConcatStep(rest[0], rest[1..]);
      if s[0] == '-' {
        ConcatStep("", rest);
      } else {
        ConcatStep([s[0]] + rest[0], rest[1..]);
        hide Concat, Split;
        assert [s[0]] + rest[0] + Concat(rest[1..]) == [s[0]] + (rest[0] + Concat(rest[1..]));
      }
    }
  }

  lemma {:induction false} NonEmptyKeepsLetters(parts: seq<string>)
    ensures Concat(NonEmpty(parts)) == Concat(parts)
  {
    if parts != [] {
      NonEmptyKeepsLetters(parts[1..]);
      if parts[0] == "" {
        assert [] + NonEmpty(parts[1..]) == NonEmpty(parts[1..]);
      } else {
        assert ([parts[0]] + NonEmpty(parts[1..]))[1..] == NonEmpty(parts[1..]);
      }
    }
  }

  /** No hyphen follows another. */
  predicate SingleHyphens(s: string) {
    forall i :: 0 <= i < |s| - 1 && s[i] == '-' ==> s[i + 1] != '-'
  }

  lemma OneHyphenBetween(word: string, tail: string)
    requires Word(word) && SingleHyphens(tail) && tail != "" && tail[0] != '-'
    ensures var text := word + ("-" + tail); SingleHyphens(text) && text[0] != '-'
  {
    var text := word + ("-" + tail);
    assert forall i :: 0 <= i < |word| ==> text[i] == word[i] && text[i] != '-';
    assert text[|word|] == '-' && forall i :: 0 <= i < |tail| ==> text[|word| + 1 + i] == tail[i];
    forall i | 0 <= i < |text| - 1 && text[i] == '-' ensures text[i + 1] != '-' {
      if |word| < i {
        assert tail[i - |word| - 1] == '-' && text[i + 1] == tail[i - |word|];
      } else {
        assert i == |word| && text[i + 1] == tail[0];
      }
    }
  }

  lemma LettersBetween(word: string, tail: string)
    requires Word(word)
    ensures Alphanumerics(word + ("-" + tail)) == word + Alphanumerics(tail)
  {
    AlphanumericsConcat(word, "-" + tail);
    AlphanumericsConcat("-", tail);
    WordIsItself(word);
    HyphenIsNone();
    hide Alphanumerics;
  }

  lemma HyphenIsNone()
    ensures Alphanumerics("-") == ""
  {
    assert "-"[1..] == "";
  }

  lemma {:induction false} JoinKeepsLetters(words: seq<string>)
    requires Words(words)
    ensures Alphanumerics(Join(words)) == Concat(words) && SingleHyphens(Join(words))
    ensures words != [] ==> Join(words) != "" && Join(words)[0] != '-'
  {
    if words != [] {
      assert Word(words[0]);
      if |words| == 1 {
        WordIsItself(words[0]);
        assert words[1..] == [] && words[0] + "" == words[0];
      } else {
        assert forall i :: 0 <= i < |words[1..]| ==> words[1..][i] == words[i + 1];
        JoinKeepsLetters(words[1..]);
        OneHyphenBetween(words[0], Join(words[1..]));
        LettersBetween(words[0], Join(words[1..]));
        hide SingleHyphens, Alphanumerics;
      }
    }
  }

  /** Collapsing keeps every letter and digit in order and the words they form, and leaves single hyphens between
      the words and nowhere else. */
  lemma CollapseKeepsWords(s: string)
    requires Clean(s)
    ensures Alphanumerics(Collapse(s)) == Alphanumerics(s)
    ensures SingleHyphens(Collapse(s)) && (Collapse(s) != "" ==> Collapse(s)[0] != '-')
    ensures NonEmpty(Split(Collapse(s))) == NonEmpty(Split(s))
  {
    var words := NonEmpty(Split(s));
    SplitGivesWords(s);
    NonEmptyAreWords(Split(s));
    SplitKeepsLetters(s);
    NonEmptyKeepsLetters(Split(s));
    JoinKeepsLetters(words);
    if words != [] {
      SplitUndoesJoin(words);
    }
  }

  lemma {:induction false} SanitizingKeepsLetters(s: string)
    ensures Alphanumerics(SanitizeAll(s)) == Alphanumerics(s)
  {
    if s != "" {
      SanitizingKeepsLetters(s[1..]);
      assert SanitizeAll(s)[1..] == SanitizeAll(s[1..]);
    }
  }

  // ---- No capitals ----

  ghost predicate NoCapitals(s: string) {
    forall i :: 0 <= i < |s| ==> !Upper(s[i])
  }

  ghost predicate NoneHasCapitals(parts: seq<string>) {
    forall i :: 0 <= i < |parts| ==> NoCapitals(parts[i])
  }

  lemma {:induction false} SplitHasNoCapitals(s: string)
    requires NoCapitals(s)
    ensures NoneHasCapitals(Split(s))
  {
    if s != "" {
      SplitHasNoCapitals(s[1..]);
      var rest := Split(s[1..]);
      assert NoCapitals(rest[0]);
      if s[0] != '-' {
        assert forall i :: 0 < i < |Split(s)| ==> Split(s)[i] == rest[i];
      } else {
        assert forall i :: 0 < i < |Split(s)| ==> Split(s)[i] == rest[i - 1];
      }
    }
  }

  lemma {:induction false} NonEmptyHasNoCapitals(parts: seq<string>)
    requires NoneHasCapitals(parts)
    ensures NoneHasCapitals(NonEmpty(parts))
  {
    if parts != [] {
      assert forall i :: 0 <= i < |parts[1..]| ==> parts[1..][i] == parts[i + 1];
      NonEmptyHasNoCapitals(parts[1..]);
    }
  }

  lemma {:induction false} JoinHasNoCapitals(parts: seq<string>)
    requires NoneHasCapitals(parts)
    ensures NoCapitals(Join(parts))
  {
    if parts != [] {
      assert forall i :: 0 <= i < |parts[1..]| ==> parts[1..][i] == parts[i + 1];
      JoinHasNoCapitals(parts[1..]);
      assert NoCapitals(parts[0]);
    }
  }

  lemma {:induction false} LoweredHasNoCapitals(lower: char -> string, s: string)
    requires Lowercases(lower)
    ensures NoCapitals(LowerAll(lower, s))
  {
    if s != "" {
      LoweredHasNoCapitals(lower, s[1..]);
    }
  }

  lemma {:induction false} LoweringCleanText(lower: char -> string, s: string)
    requires Lowercases(lower) && Clean(s) && NoCapitals(s)
    ensures LowerAll(lower, s) == s
  {
    if s != "" {
      LoweringCleanText(lower, s[1..]);
      assert Ascii(s[0]) && lower(s[0]) == [s[0]];
      assert s == [s[0]] + s[1..];
    }
  }

  lemma SanitizedIsClean(s: string)
    ensures Clean(SanitizeAll(s))
    ensures NoCapitals(s) ==> NoCapitals(SanitizeAll(s))
    ensures Clean(s) ==> SanitizeAll(s) == s
  {
  }

  lemma PipelineIsClean(lower: char -> string, name: string)
    requires Lowercases(lower)
    ensures Clean(Pipeline(lower, name)) && NoCapitals(Pipeline(lower, name))
    ensures Collapse(Pipeline(lower, name)) == Pipeline(lower, name)
  {
    var lowered := LowerAll(lower, name);
    var sanitized := SanitizeAll(lowered);
    LoweredHasNoCapitals(lower, name);
    SanitizedIsClean(lowered);
    SplitHasNoCapitals(sanitized);
    NonEmptyHasNoCapitals(Split(sanitized));
    JoinHasNoCapitals(NonEmpty(Split(sanitized)));
    CollapseFacts(sanitized);
  }

  /** Sanitizing a sanitized name changes nothing, for every string. */
  lemma PipelineIsIdempotent(lower: char -> string, name: string)
    requires Lowercases(lower)
    ensures Pipeline(lower, Pipeline(lower, name)) == Pipeline(lower, name)
  {
    var once := Pipeline(lower, name);
    PipelineIsClean(lower, name);
    LoweringCleanText(lower, once);
    SanitizedIsClean(once);
  }

  // ---- The first label ----

  lemma {:induction false} SanitizingKeepsFirst(s: string)
    ensures FirstAlphanumeric(SanitizeAll(s)) == FirstAlphanumeric(s)
  {
    if s != "" {
      SanitizingKeepsFirst(s[1..]);
      assert SanitizeAll(s)[1..] == SanitizeAll(s[1..]);
    }
  }

  lemma CleanFollowedByHex(front: string, hex: string)
    requires Clean(front) && forall i :: 0 <= i < |hex| ==> Hex(hex[i])
    ensures Clean(front + ("-" + hex))
  {
    var text := front + ("-" + hex);
    forall i | 0 <= i < |text| ensures Alphanumeric(text[i]) || text[i] == '-' {
      assert i < |front| ==> text[i] == front[i];
      assert |front| < i ==> text[i] == hex[i - |front| - 1];
    }
  }

  lemma LabelIsClean(lower: char -> string, name: string, id: string)
    requires Lowercases(lower) && Uuid(id)
    ensures Clean(Label(lower, name, id))
  {
    PipelineIsClean(lower, name);
    hide Pipeline, Uuid, Lowercases;
    CleanFollowedByHex(Truncate(Pipeline(lower, name)), Id8(id));
  }

  /** The printed subdomain: at most 48 characters of the sanitized name, which has all letters and digits of
      the lowercased one, then the first eight of the id. */
  lemma SubdomainShows(lower: char -> string, name: string, id: string)
    requires Lowercases(lower) && Uuid(id)
    ensures var clean := Pipeline(lower, name);
            && Alphanumerics(clean) == Alphanumerics(LowerAll(lower, name)) && SingleHyphens(clean)
            && GenerateSubdomain(lower, name, id)
               == (if |clean| <= 48 then clean else clean[..48]) + "-" + id[..8] + ".db"
  {
    var lowered := LowerAll(lower, name);
    SanitizedIsClean(lowered);
    SanitizingKeepsLetters(lowered);
    PrintsInOrder(lower, name, id);
    hide GenerateSubdomain, LowerAll, SanitizeAll, Collapse, Alphanumerics, SingleHyphens, Clean, Lowercases, Uuid;
    CollapseKeepsWords(SanitizeAll(lowered));
  }

  lemma PrintsInOrder(lower: char -> string, name: string, id: string)
    requires Uuid(id)
    ensures var clean := Pipeline(lower, name);
            GenerateSubdomain(lower, name, id) == (if |clean| <= 48 then clean else clean[..48]) + "-" + id[..8] + ".db"
  {
    hide Pipeline, Uuid;
    var front := Truncate(Pipeline(lower, name));
    Regroup(front, "-", Id8(id));
  }

  /** For every name whatsoever the label is valid if and only if the first letter or digit of the
      lowercased name is a letter; it never exceeds 57 characters. */
  lemma LabelIsValidIff(lower: char -> string, name: string, id: string)
    requires Lowercases(lower) && Uuid(id)
    ensures |Label(lower, name, id)| <= 57
    ensures ValidLabel(Label(lower, name, id))
            <==> var first := FirstAlphanumeric(LowerAll(lower, name)); first.Some? && Letter(first.value)
  {
    var sanitized := SanitizeAll(LowerAll(lower, name));
    SanitizedIsClean(LowerAll(lower, name));
    SanitizingKeepsFirst(LowerAll(lower, name));
    CollapseFacts(sanitized);
    var front, text := Truncate(Collapse(sanitized)), Label(lower, name, id);
    assert text == front + ("-" + Id8(id));
    assert text[|text| - 1] == Id8(id)[7];
    LabelIsClean(lower, name, id);
  }

  /** So for every name that creating a database accepts. */
  lemma AcceptedNamesPrintValidLabels(lower: char -> string, name: string, id: string)
    requires Lowercases(lower) && Uuid(id) && ValidDbName(name)
    ensures ValidLabel(Label(lower, name, id))
  {
    assert Ascii(name[0]) && lower(name[0]) == [AsciiLower(name[0])];
    assert LowerAll(lower, name)[0] == AsciiLower(name[0]);
    LabelIsValidIff(lower, name, id);
  }

  lemma {:induction false} UpToTheDot(text: string, rest: string)
    requires forall i :: 0 <= i < |text| ==> text[i] != '.'
    ensures FirstLabel(text + ("." + rest)) == text
  {
    var s := text + ("." + rest);
    if text == "" {
      assert s == "." + rest;
    } else {
      assert s[1..] == text[1..] + ("." + rest);
      UpToTheDot(text[1..], rest);
      assert text == [text[0]] + text[1..];
    }
  }

  /** The label is what stands before the first dot of the printed subdomain. */
  lemma LabelIsFirst(lower: char -> string, name: string, id: string)
    requires Lowercases(lower) && Uuid(id)
    ensures FirstLabel(GenerateSubdomain(lower, name, id)) == Label(lower, name, id)
  {
    LabelIsClean(lower, name, id);
    hide Label, FirstLabel, Lowercases, Uuid;
    assert forall i :: 0 <= i < |Label(lower, name, id)| ==> Label(lower, name, id)[i] != '.';
    UpToTheDot(Label(lower, name, id), "db");
    assert ".db" == "." + "db";
  }

  /** Databases whose ids differ in their first eight characters never share a subdomain, whatever
      their names. */
  lemma DistinctIdsPrintApart(lower: char -> string, name: string, id: string, otherName: string, otherId: string)
    requires Uuid(id) && Uuid(otherId)
    requires GenerateSubdomain(lower, name, id) == GenerateSubdomain(lower, otherName, otherId)
    ensures id[..8] == otherId[..8]
  {
    var a, b := GenerateSubdomain(lower, name, id), GenerateSubdomain(lower, otherName, otherId);
    assert a[|a| - 11..|a| - 3] == Id8(id);
    assert b[|b| - 11..|b| - 3] == Id8(otherId);
  }
}
