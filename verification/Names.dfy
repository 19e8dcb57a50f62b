/** Container names made safe for Docker, and the names generated from an image. */
module Names {

  import opened Text

  const MAX_NAME: nat := 64
  const CUT: nat := 57

  /** Unicode white space. */
  predicate IsSpace(c: char) {
    var n := c as int;
    9 <= n <= 13 || n in {0x20, 0x85, 0xA0, 0x1680, 0x2028, 0x2029, 0x202F, 0x205F, 0x3000} || 0x2000 <= n <= 0x200A
  }

  predicate Plain(c: char) {
    'a' <= c <= 'z' || '0' <= c <= '9' || c == '_' || c == '.'
  }

  predicate Alnum(c: char) {
    'a' <= c <= 'z' || '0' <= c <= '9'
  }

  function TrimLeft(s: string, drop: char -> bool): string {
    if s != "" && drop(s[0]) then TrimLeft(s[1..], drop) else s
  }

  function TrimRight(s: string, drop: char -> bool): string {
    if s != "" && drop(s[|s| - 1]) then TrimRight(s[..|s| - 1], drop) else s
  }

  function Trim(s: string, drop: char -> bool): string {
    TrimRight(TrimLeft(s, drop), drop)
  }

  predicate IsDash(c: char) {
    c == '-'
  }

  /** Every run of other characters becomes one dash. */
  function Fold(s: string): string {
    if s == "" then ""
    else
      var front, c := Fold(s[..|s| - 1]), s[|s| - 1];
      if Plain(c) then front + [c] else if EndsInDash(front) then front else front + "-"
  }

  predicate EndsInDash(s: string) {
    s != "" && s[|s| - 1] == '-'
  }

  /** What the name keeps of the text: trimmed, lower-cased and folded. */
  function Folded(raw: string): string {
    Trim(Fold(ToLower(Trim(raw, IsSpace))), IsDash)
  }

  /** The name made of a folded text, given the six hex digits drawn should it need them. */
  function Finished(folded: string, hex: string): string {
    if folded == "" then "pp-" + hex
    else
      var out := if |folded| > MAX_NAME then folded[..CUT] + "-" + hex else folded;
      if Alnum(out[0]) then out else "x" + out
  }

  function Sanitized(raw: string, hex: string): string {
    Finished(Folded(raw), hex)
  }

  predicate Hex(s: string) {
    |s| == 6 && forall i :: 0 <= i < 6 ==> '0' <= s[i] <= '9' || 'a' <= s[i] <= 'f'
  }

  predicate PlainOrDash(s: string) {
    forall i :: 0 <= i < |s| ==> Plain(s[i]) || IsDash(s[i])
  }

  predicate NoDoubleDash(s: string) {
    forall i :: 0 < i < |s| ==> !(IsDash(s[i - 1]) && IsDash(s[i]))
  }

  /** Words of plain characters with single dashes between them. */
  predicate Clean(s: string) {
    PlainOrDash(s) && NoDoubleDash(s) && (s != "" ==> !IsDash(s[0]) && !IsDash(s[|s| - 1]))
  }

  /** What every generated or sanitised name satisfies. */
  predicate Safe(s: string) {
    0 < |s| <= MAX_NAME + 1 && Alnum(s[0]) && PlainOrDash(s)
  }

  method Sanitize(raw: string, hex: string) returns (out: string)
    ensures out == Sanitized(raw, hex)
  {
    var s := ToLower(Trim(raw, IsSpace));
    if s == "" {
      return "pp-" + hex;
    }
    var b, lastDash := "", false;
    for i := 0 to |s|
      invariant b == Fold(s[..i]) && lastDash == EndsInDash(b)
    {
      assert s[..i + 1][..i] == s[..i];
      if Plain(s[i]) {
        b, lastDash := b + [s[i]], false;
      } else if !lastDash {
        b, lastDash := b + "-", true;
      }
    }
    assert s[..|s|] == s;
    out := Trim(b, IsDash);
    if out == "" {
      return "pp-" + hex;
    }
    if |out| > MAX_NAME {
      out := out[..CUT] + "-" + hex;
    }
    if !Alnum(out[0]) {
      out := "x" + out;
    }
  }

  // ---------- Names generated from an image ----------

  /** The text after the last slash. */
  function AfterSlash(s: string): string {
    if s == "" then ""
    else if s[|s| - 1] == '/' then ""
    else AfterSlash(s[..|s| - 1]) + [s[|s| - 1]]
  }

  /** The first ':' or '@' becomes a dash. */
  function DashTag(s: string): string {
    if s == "" then ""
    else if s[0] in {':', '@'} then "-" + s[1..]
    else [s[0]] + DashTag(s[1..])
  }

  function AutoName(image: string, cut: string, hex: string): string {
    var name := DashTag(AfterSlash(image));
    Sanitized("pp-" + (if name == "" then "container" else name), cut) + "-" + hex
  }

  // ---------- The words of a text ----------

  /** The maximal runs of plain characters. */
  function Words(s: string): (ws: seq<string>)
    ensures s != "" && (Plain(s[0]) || Plain(s[|s| - 1])) ==> ws != []
  {
    if s == "" then []
    else
      var front, c := s[..|s| - 1], s[|s| - 1];
      var ws := Words(front);
      if !Plain(c) then ws
      else if front != "" && Plain(front[|front| - 1]) then ws[..|ws| - 1] + [ws[|ws| - 1] + [c]]
      else ws + [[c]]
  }

  function Join(ws: seq<string>): string {
    if ws == [] then ""
    else if |ws| == 1 then ws[0]
    else Join(ws[..|ws| - 1]) + "-" + ws[|ws| - 1]
  }

  lemma JoinAppend(ws: seq<string>, w: string)
    ensures Join(ws + [w]) == if ws == [] then w else Join(ws) + "-" + w
  {
    assert (ws + [w])[..|ws|] == ws;
  }

  lemma JoinGrow(ws: seq<string>, w: string, c: char)
    ensures Join(ws + [w + [c]]) == Join(ws + [w]) + [c]
  {
    JoinAppend(ws, w);
    JoinAppend(ws, w + [c]);
  }

  predicate PlainWord(w: string) {
    w != "" && forall i :: 0 <= i < |w| ==> Plain(w[i])
  }

  lemma {:induction false} WordsArePlain(s: string)
    ensures forall i :: 0 <= i < |Words(s)| ==> PlainWord(Words(s)[i])
  {
    if s != "" {
      WordsArePlain(s[..|s| - 1]);
    }
  }

  lemma {:induction false} JoinIsClean(ws: seq<string>)
    requires forall i :: 0 <= i < |ws| ==> PlainWord(ws[i])
    ensures Clean(Join(ws))
    ensures ws != [] ==> Join(ws) != ""
  {
    if |ws| > 1 {
      JoinIsClean(ws[..|ws| - 1]);
    }
  }

  /** A dash for what precedes the first word. */
  function Lead(s: string): string {
    if s != "" && !Plain(s[0]) then "-" else ""
  }

  /** A dash for what follows the last word. */
  function Trail(s: string): string {
    if Words(s) != [] && s != "" && !Plain(s[|s| - 1]) then "-" else ""
  }

  predicate FoldsToJoin(s: string) {
    Fold(s) == Lead(s) + Join(Words(s)) + Trail(s)
  }

  lemma {:induction false} WordContinues(front: string, c: char)
    requires front != "" && Plain(front[|front| - 1]) && Plain(c)
    ensures Join(Words(front + [c])) == Join(Words(front)) + [c]
  {
    var ws, s := Words(front), front + [c];
    assert s[..|s| - 1] == front;
    var init, w := ws[..|ws| - 1], ws[|ws| - 1];
    assert ws == init + [w] && Words(s) == init + [w + [c]];
    JoinGrow(init, w, c);
  }

  lemma Attach(lead: string, j: string, trail: string, c: char)
    ensures (lead + j + trail) + [c] == lead + (j + trail + [c]) + ""
  {
  }

  lemma FoldContinues(front: string, c: char)
    requires front != "" && FoldsToJoin(front) && Plain(front[|front| - 1]) && Plain(c)
    ensures FoldsToJoin(front + [c])
  {
    hide Words, Join, Plain;
    var s, j := front + [c], Join(Words(front));
    assert s[..|s| - 1] == front && Trail(front) == Trail(s) == "" && Lead(s) == Lead(front);
    WordContinues(front, c);
    assert j + "" == j;
    Attach(Lead(front), j, "", c);
  }

  lemma WordStarts(front: string, c: char)
    requires front != "" && !Plain(front[|front| - 1]) && Plain(c)
    ensures Join(Words(front + [c])) == (if Words(front) == [] then "" else Join(Words(front)) + "-") + [c]
  {
    var s := front + [c];
    assert s[..|s| - 1] == front;
    assert Words(s) == Words(front) + [[c]];
    JoinAppend(Words(front), [c]);
  }

  lemma FoldStartsWord(front: string, c: char)
    requires front != "" && FoldsToJoin(front) && !Plain(front[|front| - 1]) && Plain(c)
    ensures FoldsToJoin(front + [c])
  {
    hide Words, Join, Plain;
    var s, j := front + [c], Join(Words(front));
    assert s[..|s| - 1] == front && Trail(s) == "" && Lead(s) == Lead(front);
    WordStarts(front, c);
    NoWords(front);
    Attach(Lead(front), j, Trail(front), c);
    assert j + Trail(front) == if Words(front) == [] then "" else j + "-";
  }

  lemma NoWords(s: string)
    ensures Words(s) == [] ==> Join(Words(s)) == "" && Trail(s) == ""
  {
  }

  lemma FoldSkips(front: string, c: char)
    requires front != "" && FoldsToJoin(front) && !Plain(c)
    ensures FoldsToJoin(front + [c])
  {
    var ws, s := Words(front), front + [c];
    assert s[..|s| - 1] == front;
    WordsArePlain(front);
    JoinIsClean(ws);
  }

  /** Folding writes the words with single dashes between them. */
  lemma {:induction false} FoldIsJoin(s: string)
    ensures FoldsToJoin(s)
  {
    if |s| > 1 {
      var front, c := s[..|s| - 1], s[|s| - 1];
      FoldIsJoin(front);
      assert s == front + [c];
      if !Plain(c) {
        FoldSkips(front, c);
      } else if Plain(front[|front| - 1]) {
        FoldContinues(front, c);
      } else {
        FoldStartsWord(front, c);
      }
    } else if |s| == 1 {
      assert s[..0] == "" && s == [s[0]];
    }
  }

  // ---------- What a sanitised name is ----------

  lemma TrimmedJoin(lead: string, j: string, trail: string)
    requires lead in {"", "-"} && trail in {"", "-"} && Clean(j)
    requires j == "" ==> trail == ""
    ensures Trim(lead + j + trail, IsDash) == j
  {
    if lead == "-" {
      assert (lead + j + trail)[1..] == j + trail;
    } else {
      assert lead + j + trail == j + trail;
    }
    assert TrimLeft(j + trail, IsDash) == j + trail;
    if trail == "-" {
      assert (j + trail)[..|j + trail| - 1] == j;
    } else {
      assert j + trail == j;
    }
    assert TrimRight(j, IsDash) == j;
  }

  /** A folded text is its words, trimmed and lower-cased, with single dashes between them. */
  lemma FoldedIsJoin(raw: string)
    ensures Folded(raw) == Join(Words(ToLower(Trim(raw, IsSpace))))
    ensures Clean(Folded(raw))
  {
    var s := ToLower(Trim(raw, IsSpace));
    FoldIsJoin(s);
    WordsArePlain(s);
    JoinIsClean(Words(s));
    TrimmedJoin(Lead(s), Join(Words(s)), Trail(s));
  }

  /** Every sanitised name is a safe container name. */
  lemma SanitizedIsSafe(raw: string, hex: string)
    requires Hex(hex)
    ensures Safe(Sanitized(raw, hex))
  {
    FoldedIsJoin(raw);
  }

  /** A name is at most 64 long exactly when its folded text is shorter, or starts with neither '_' nor '.'. */
  lemma {:induction false} LengthIff(raw: string, hex: string)
    requires Hex(hex)
    ensures |Sanitized(raw, hex)| <= MAX_NAME
      <==> |Folded(raw)| < MAX_NAME || Folded(raw)[0] !in {'_', '.'}
    ensures |Sanitized(raw, hex)| > MAX_NAME ==> |Sanitized(raw, hex)| == MAX_NAME + 1
  {
    FoldedIsJoin(raw);
  }

  // ---------- Sanitising twice ----------

  lemma {:induction false} FoldOfClean(s: string)
    requires PlainOrDash(s) && NoDoubleDash(s)
    ensures Fold(s) == s
  {
    if s != "" {
      FoldOfClean(s[..|s| - 1]);
      assert s == s[..|s| - 1] + [s[|s| - 1]];
    }
  }

  lemma LowerOfPlain(s: string)
    requires PlainOrDash(s)
    ensures ToLower(s) == s
  {
  }

  lemma FoldedOfClean(s: string)
    requires Clean(s)
    ensures Folded(s) == s
  {
    LowerOfPlain(s);
    FoldOfClean(s);
  }

  /** An underscore and 63 letters come out 65 long, and so does anything appended to them. */
  lemma {:induction false} LeadingUnderscoreIsTooLong(more: string, hex: string)
    requires Hex(hex) && forall i :: 0 <= i < |more| ==> Alnum(more[i])
    ensures |Sanitized("_" + seq(63, i => 'a') + more, hex)| == MAX_NAME + 1
  {
    var s := "_" + seq(63, i => 'a') + more;
    assert Clean(s);
    FoldedOfClean(s);
    LengthIff(s, hex);
  }

  /** A folded text that the second pass leaves alone: neither lengthened to 65 nor cut after a dash. */
  predicate Stable(f: string) {
    if |f| <= MAX_NAME then f == "" || Alnum(f[0]) || |f| < MAX_NAME
    else Alnum(f[0]) && !IsDash(f[CUT - 1])
  }

  lemma FinishedClean(f: string, hex: string)
    requires Clean(f) && Hex(hex)
    ensures Clean(Finished(f, hex)) <==> |f| <= MAX_NAME || !IsDash(f[CUT - 1])
  {
    var r := Finished(f, hex);
    if |f| > MAX_NAME && IsDash(f[CUT - 1]) {
      var k := if Alnum(f[0]) then CUT else CUT + 1;
      assert r[k - 1] == '-' && r[k] == '-';
    }
  }

  /** Folding a text with a double dash shortens it; its first character stays. */
  lemma {:induction false} FoldShortens(s: string)
    requires s != "" && Plain(s[0])
    ensures Fold(s) != "" && Fold(s)[0] == s[0] && |Fold(s)| <= |s|
    ensures !NoDoubleDash(s) ==> |Fold(s)| < |s|
  {
    if |s| > 1 {
      FoldShortens(s[..|s| - 1]);
    } else {
      assert s[..0] == "";
    }
  }

  lemma {:induction false} TrimRightIsPrefix(s: string, drop: char -> bool)
    ensures TrimRight(s, drop) <= s
    ensures s != "" && !drop(s[0]) ==> TrimRight(s, drop) != ""
  {
    if s != "" && drop(s[|s| - 1]) {
      TrimRightIsPrefix(s[..|s| - 1], drop);
    }
  }

  lemma HeadStays(r: string)
    requires r != "" && Alnum(r[0]) && PlainOrDash(r)
    requires !IsDash(r[|r| - 1])
    ensures Folded(r) != "" && Folded(r)[0] == r[0] && |Folded(r)| <= |r|
    ensures !NoDoubleDash(r) ==> |Folded(r)| < |r|
  {
    LowerOfPlain(r);
    FoldShortens(r);
    TrimRightIsPrefix(Fold(r), IsDash);
  }

  /** Sanitising is idempotent exactly on the stable texts, whatever digits each pass draws. */
  lemma FixedPointIff(raw: string, first: string, second: string)
    requires Hex(first) && Hex(second)
    ensures Sanitized(Sanitized(raw, first), second) == Sanitized(raw, first) <==> Stable(Folded(raw))
  {
    var f, r := Folded(raw), Sanitized(raw, first);
    FoldedIsJoin(raw);
    SanitizedIsSafe(raw, first);
    FinishedClean(f, first);
    if Clean(r) {
      FoldedOfClean(r);
    } else {
      HeadStays(r);
    }
  }

  lemma ShortIsClean(raw: string, cut: string)
    requires Hex(cut) && |Sanitized(raw, cut)| <= CUT
    ensures Clean(Sanitized(raw, cut))
  {
    FoldedIsJoin(raw);
    FinishedClean(Folded(raw), cut);
  }

  lemma SuffixIsFixedIff(raw: string, cut: string, hex: string, second: string)
    requires Hex(cut) && Hex(hex) && Hex(second)
    ensures var name := Sanitized(raw, cut) + "-" + hex;
      Sanitized(name, second) == name <==> |name| <= MAX_NAME
  {
    var start := Sanitized(raw, cut);
    var name := start + "-" + hex;
    SanitizedIsSafe(raw, cut);
    if |name| <= MAX_NAME {
      ShortIsClean(raw, cut);
      assert Clean(name);
      FoldedOfClean(name);
    } else {
      HeadStays(name);
      assert |Sanitized(name, second)| <= MAX_NAME;
    }
  }

  /** Create's second pass leaves a generated name alone exactly when it is at most 64 long. */
  lemma AutoNameIsFixedIff(image: string, cut: string, hex: string, second: string)
    requires Hex(cut) && Hex(hex) && Hex(second)
    ensures var name := AutoName(image, cut, hex);
      Sanitized(name, second) == name <==> |name| <= MAX_NAME
  {
    var base := DashTag(AfterSlash(image));
    SuffixIsFixedIff("pp-" + (if base == "" then "container" else base), cut, hex, second);
  }

  // ---------- What comes out, letter by letter ----------

  const INITIALS := "abcdefghijklmnopqrstuvwxyz0123456789"
  const ALPHABET := INITIALS + "_."

  lemma PlainMeans(c: char)
    ensures Plain(c) <==> c in ALPHABET
    ensures Alnum(c) <==> c in INITIALS
  {
    var lower := "abcdefghijklmnopqrstuvwxyz";
    var digits := "0123456789";
    assert INITIALS == lower + digits;
    if 'a' <= c <= 'z' { assert lower[c as int - 'a' as int] == c; }
    if '0' <= c <= '9' { assert digits[c as int - '0' as int] == c; }
    assert forall i :: 0 <= i < 26 ==> 'a' <= lower[i] <= 'z';
    assert forall i :: 0 <= i < 10 ==> '0' <= digits[i] <= '9';
  }

  /** A nonempty text over the alphabet. */
  predicate Word(s: string) {
    s != "" && forall i :: 0 <= i < |s| ==> s[i] in ALPHABET
  }

  lemma WordIsPlain(s: string)
    requires Word(s)
    ensures PlainWord(s) && Clean(s)
  {
    forall i | 0 <= i < |s| ensures Plain(s[i]) {
      PlainMeans(s[i]);
    }
  }

  /** The characters of every name. */
  lemma NameCharacters(raw: string, hex: string)
    requires Hex(hex)
    ensures var name := Sanitized(raw, hex);
      1 <= |name| <= 65 && name[0] in INITIALS && forall i :: 0 <= i < |name| ==> name[i] in ALPHABET || name[i] == '-'
  {
    SanitizedIsSafe(raw, hex);
    var name := Sanitized(raw, hex);
    forall i | 0 <= i < |name|
      ensures (name[i] in ALPHABET || name[i] == '-') && (i == 0 ==> name[0] in INITIALS)
    {
      PlainMeans(name[i]);
    }
  }

  /** What becomes of a text of words already joined by single dashes. */
  predicate CutTo(f: string, hex: string, name: string) {
    f != "" &&
    var short := if |f| > 64 then f[..57] + "-" + hex else f;
    name == if f[0] in INITIALS then short else "x" + short
  }

  lemma CleanIsCut(f: string, hex: string)
    requires Clean(f) && f != ""
    ensures CutTo(f, hex, Sanitized(f, hex))
  {
    FoldedOfClean(f);
    PlainMeans(f[0]);
  }

  lemma {:induction false} FoldPlainTail(s: string, b: string)
    requires forall i :: 0 <= i < |b| ==> Plain(b[i])
    ensures Fold(s + b) == Fold(s) + b
    decreases |b|
  {
    if b == "" {
      assert s + b == s;
    } else {
      var front := b[..|b| - 1];
      FoldPlainTail(s, front);
      assert (s + b)[..|s + b| - 1] == s + front;
      assert Fold(s) + front + [b[|b| - 1]] == Fold(s) + b;
    }
  }

  lemma FoldBetween(a: string, c: char, b: string)
    requires Word(a) && Word(b) && !Plain(c)
    ensures Fold(a + [c] + b) == a + "-" + b
  {
    hide Plain;
    WordIsPlain(a);
    WordIsPlain(b);
    FoldOfClean(a);
    assert (a + [c])[..|a|] == a;
    assert Fold(a + [c]) == a + "-";
    FoldPlainTail(a + [c], b);
  }

  /** A character outside the alphabet, between two words, becomes one dash. */
  lemma OneDashBetween(a: string, c: char, b: string, hex: string)
    requires Word(a) && Word(b) && Lower(c) !in ALPHABET
    ensures CutTo(a + "-" + b, hex, Sanitized(a + [c] + b, hex))
  {
    hide Plain, IsSpace, Word, Fold;
    PlainMeans(Lower(c));
    WordEnds(a);
    WordEnds(b);
    var raw, f := a + [c] + b, a + "-" + b;
    TrimKeeps(raw, IsSpace);
    LowerOfPlain(a);
    LowerOfPlain(b);
    assert ToLower(raw) == ToLower(a) + [Lower(c)] + ToLower(b);
    FoldBetween(a, Lower(c), b);
    JoinedIsClean(a, b);
    TrimKeeps(f, IsDash);
    PlainMeans(f[0]);
  }

  lemma WordEnds(s: string)
    requires Word(s)
    ensures Clean(s) && s != "" && !IsSpace(s[0]) && !IsSpace(s[|s| - 1])
  {
    WordIsPlain(s);
  }

  lemma TrimKeeps(s: string, drop: char -> bool)
    requires s != "" && !drop(s[0]) && !drop(s[|s| - 1])
    ensures Trim(s, drop) == s
  {
  }

  /** With nothing usable in it, a text gives way to the digits. */
  lemma NothingLeft(raw: string, hex: string)
    requires forall i :: 0 <= i < |raw| ==> Lower(raw[i]) !in ALPHABET
    ensures Sanitized(raw, hex) == "pp-" + hex
  {
    var s := Trim(raw, IsSpace);
    TrimIsPart(raw, IsSpace);
    forall i | 0 <= i < |s| ensures !Plain(ToLower(s)[i]) {
      assert s[i] in s && s[i] in raw;
      PlainMeans(Lower(s[i]));
    }
    NoPlainNoWords(ToLower(s));
    FoldedIsJoin(raw);
  }

  lemma {:induction false} NoPlainNoWords(s: string)
    requires forall i :: 0 <= i < |s| ==> !Plain(s[i])
    ensures Words(s) == []
  {
    if s != "" {
      NoPlainNoWords(s[..|s| - 1]);
    }
  }

  lemma TrimIsPart(s: string, drop: char -> bool)
    ensures forall c :: c in Trim(s, drop) ==> c in s
  {
    TrimLeftIsPart(s, drop);
    TrimRightIsPrefix(TrimLeft(s, drop), drop);
  }

  lemma {:induction false} TrimLeftIsPart(s: string, drop: char -> bool)
    ensures forall c :: c in TrimLeft(s, drop) ==> c in s
  {
    if s != "" && drop(s[0]) {
      TrimLeftIsPart(s[1..], drop);
    }
  }

  /** Case does not matter. */
  lemma CaseIgnored(raw: string, hex: string)
    ensures Sanitized(ToLower(raw), hex) == Sanitized(raw, hex)
  {
    LowerTrims(raw);
    assert ToLower(ToLower(Trim(raw, IsSpace))) == ToLower(Trim(raw, IsSpace));
  }

  lemma LowerTrims(s: string)
    ensures Trim(ToLower(s), IsSpace) == ToLower(Trim(s, IsSpace))
  {
    LowerTrimsLeft(s);
    LowerTrimsRight(TrimLeft(s, IsSpace));
  }

  lemma {:induction false} LowerTrimsLeft(s: string)
    ensures TrimLeft(ToLower(s), IsSpace) == ToLower(TrimLeft(s, IsSpace))
  {
    if s != "" {
      LowerTrimsLeft(s[1..]);
      assert ToLower(s)[1..] == ToLower(s[1..]);
    }
  }

  lemma {:induction false} LowerTrimsRight(s: string)
    ensures TrimRight(ToLower(s), IsSpace) == ToLower(TrimRight(s, IsSpace))
  {
    if s != "" {
      LowerTrimsRight(s[..|s| - 1]);
      assert ToLower(s)[..|s| - 1] == ToLower(s[..|s| - 1]);
    }
  }

  // ---------- Generated names, letter by letter ----------

  lemma {:induction false} AfterSlashMeans(dir: string, base: string)
    requires '/' !in base
    ensures AfterSlash(base) == base && AfterSlash(dir + "/" + base) == base
    decreases |base|
  {
    if base == "" {
      assert (dir + "/" + base)[|dir + "/" + base| - 1] == '/';
    } else {
      var front, s := base[..|base| - 1], dir + "/" + base;
      AfterSlashMeans(dir, front);
      assert s[..|s| - 1] == dir + "/" + front && s[|s| - 1] == base[|base| - 1];
      assert base == front + [base[|base| - 1]];
    }
  }

  lemma {:induction false} DashTagMeans(name: string, sep: char, tag: string)
    requires ':' !in name && '@' !in name && sep in {':', '@'}
    ensures DashTag(name) == name && DashTag(name + [sep] + tag) == name + "-" + tag
  {
    var s := name + [sep] + tag;
    if name == "" {
      assert s[1..] == tag;
    } else {
      DashTagMeans(name[1..], sep, tag);
      assert s[1..] == name[1..] + [sep] + tag && s[0] == name[0];
      assert name == [name[0]] + name[1..];
    }
  }

  /**
   * An image `dir/name:tag` gives `pp-name-tag` and the digits, whatever the registry and directory:
   * they are dropped, not folded in.
   */
  lemma AutoNameMeans(dir: string, name: string, sep: char, tag: string, cut: string, hex: string)
    requires Word(name) && Word(tag) && sep in {':', '@'} && |name| + |tag| <= 60
    ensures AutoName(name, cut, hex) == "pp-" + name + "-" + hex
    ensures AutoName(name + [sep] + tag, cut, hex) == "pp-" + name + "-" + tag + "-" + hex
    ensures AutoName(dir + "/" + name + [sep] + tag, cut, hex) == "pp-" + name + "-" + tag + "-" + hex
  {
    hide AutoName, Clean, DashTag, AfterSlash;
    ImageBase(dir, name, sep, tag);
    assert name != "";
    hide Word;
    WordsJoined(name, tag);
    var base := name + "-" + tag;
    assert "pp-" + base == "pp-" + name + "-" + tag;
    AutoNameIs(name, name, cut, hex);
    AutoNameIs(name + [sep] + tag, base, cut, hex);
    AutoNameIs(dir + "/" + name + [sep] + tag, base, cut, hex);
  }

  lemma AutoNameIs(image: string, base: string, cut: string, hex: string)
    requires DashTag(AfterSlash(image)) == base && base != "" && Clean("pp-" + base) && |base| <= 61
    ensures AutoName(image, cut, hex) == ("pp-" + base) + "-" + hex
  {
    hide Sanitized, DashTag, AfterSlash, Clean;
    ShortIsKept("pp-" + base, cut);
  }

  lemma ImageBase(dir: string, name: string, sep: char, tag: string)
    requires Word(name) && Word(tag) && sep in {':', '@'}
    ensures DashTag(AfterSlash(name)) == name
    ensures DashTag(AfterSlash(name + [sep] + tag)) == name + "-" + tag
    ensures DashTag(AfterSlash(dir + "/" + name + [sep] + tag)) == name + "-" + tag
  {
    hide DashTag, AfterSlash, Word;
    NoSeparators(name);
    NoSeparators(tag);
    var base := name + [sep] + tag;
    assert '/' !in base;
    AfterSlashMeans(dir, base);
    AfterSlashMeans(dir, name);
    assert dir + "/" + base == dir + "/" + name + [sep] + tag;
    DashTagMeans(name, sep, tag);
  }

  lemma WordsJoined(name: string, tag: string)
    requires Word(name) && Word(tag)
    ensures Clean("pp-" + name) && Clean("pp-" + name + "-" + tag)
  {
    hide Plain, Clean, Word;
    PrefixIsClean();
    WordEnds(name);
    WordEnds(tag);
    WordIsPlain(name);
    WordIsPlain(tag);
    JoinedIsClean("pp", name);
    assert "pp" + "-" + name == "pp-" + name;
    JoinedIsClean("pp-" + name, tag);
  }

  lemma PrefixIsClean()
    ensures Clean("pp")
  {
  }

  lemma JoinedIsClean(a: string, b: string)
    requires Clean(a) && Clean(b) && a != "" && b != ""
    ensures Clean(a + "-" + b)
  {
    hide Plain;
  }

  lemma ShortIsKept(f: string, hex: string)
    requires Clean(f) && 0 < |f| <= MAX_NAME && f[0] == 'p'
    ensures Sanitized(f, hex) == f
  {
    FoldedOfClean(f);
  }

  lemma NoSeparators(s: string)
    requires Word(s)
    ensures '/' !in s && ':' !in s && '@' !in s
  {
    WordIsPlain(s);
  }
}
