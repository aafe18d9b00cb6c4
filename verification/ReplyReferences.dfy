/**
 * Message identifiers and reference chains of mail headers
 * (backend/src/job_apply_pro/domain/mail_threading.py), as sections 2.2.3 and 3.6.4 of
 * RFC 5322 print them.
 */
module ReplyReferences {
  import opened Prelude

  const MAX_HEADER_CHARACTERS: nat := 8192
  const MAX_MESSAGE_ID_CHARACTERS: nat := 985
  const MAX_REFERENCES: nat := 50

  /** Which characters beyond ASCII are neither control, format, unassigned nor line separators. */
  type Charset = char -> bool

  // ---------------------------------------------------------------- characters

  predicate White(c: char) { c == ' ' || c == '\t' }

  predicate Safe(c: char, beyond: Charset) { if c as int < 127 then 32 <= c as int else beyond(c) }

  /** White space that can end a safe text. */
  predicate Space(c: char) {
    c as int in {0x20, 0xA0, 0x1680, 0x202F, 0x205F, 0x3000} || 0x2000 <= c as int <= 0x200A
  }

  /** Letters, digits, and the printable specials that RFC 5322 (section 3.2.3) admits in an atom. */
  predicate AtomCharacter(c: char) {
    || c == '!' || '#' <= c <= '\'' || c == '*' || c == '+' || c == '-' || '/' <= c <= '9'
    || c == '=' || c == '?' || 'A' <= c <= 'Z' || '^' <= c <= '~'
  }

  /** Atoms joined by single dots. */
  predicate DotAtom(s: string) {
    && s != "" && s[0] != '.' && s[|s| - 1] != '.'
    && (forall i :: 0 <= i < |s| ==> AtomCharacter(s[i]) || s[i] == '.')
    && (forall i :: 0 <= i < |s| - 1 ==> s[i] != '.' || s[i + 1] != '.')
  }

  predicate IsMessageId(s: string) {
    && |s| >= 2 && s[0] == '<' && s[|s| - 1] == '>'
    && exists at :: 1 <= at < |s| - 1 && s[at] == '@' && DotAtom(s[1..at]) && DotAtom(s[at + 1..|s| - 1])
  }

  predicate ValidId(id: string) { |id| <= MAX_MESSAGE_ID_CHARACTERS && IsMessageId(id) }

  predicate AllValid(ids: seq<string>) { forall i :: 0 <= i < |ids| ==> ValidId(ids[i]) }

  // ---------------------------------------------------------------- unfolding

  function SkipWhite(s: string): (r: string)
    ensures |r| <= |s|
  {
    if s != "" && White(s[0]) then SkipWhite(s[1..]) else s
  }

  predicate AtFold(s: string) { |s| > 2 && s[0] == '\r' && s[1] == '\n' && White(s[2]) }

  /** Each line break with the white space behind it becomes one space. */
  function Substitute(s: string): (r: string)
    ensures |r| <= |s|
    decreases |s|
  {
    if s == "" then ""
    else if AtFold(s) then " " + Substitute(SkipWhite(s[2..]))
    else [s[0]] + Substitute(s[1..])
  }

  function Detab(s: string): (r: string)
    ensures |r| == |s|
  {
    if s == "" then "" else [if s[0] == '\t' then ' ' else s[0]] + Detab(s[1..])
  }

  predicate SafeText(s: string, limit: nat, beyond: Charset) {
    0 < |s| <= limit && forall i :: 0 <= i < |s| ==> Safe(s[i], beyond)
  }

  function StripLeft(s: string): (r: string)
    ensures |r| <= |s|
  {
    if s != "" && Space(s[0]) then StripLeft(s[1..]) else s
  }

  function StripRight(s: string): (r: string)
    ensures |r| <= |s|
  {
    if s != "" && Space(s[|s| - 1]) then StripRight(s[..|s| - 1]) else s
  }

  function Unfold(value: string, limit: nat, beyond: Charset): (r: Option<string>)
    ensures r.Some? ==> |r.value| <= |value| <= limit
  {
    var unfolded := Detab(Substitute(value));
    if |value| > limit || !SafeText(unfolded, limit, beyond) then None
    else Some(StripRight(StripLeft(unfolded)))
  }

  function MessageId(value: string, beyond: Charset): (r: Option<string>)
    ensures r.Some? ==> ValidId(r.value) && |r.value| <= |value|
  {
    var unfolded := Unfold(value, MAX_MESSAGE_ID_CHARACTERS, beyond);
    if unfolded.Some? && IsMessageId(unfolded.value) then unfolded else None
  }

  // ---------------------------------------------------------------- reference chains

  /** `str.split(" ")`: always one more part than there are spaces. */
  function Split(s: string): (parts: seq<string>)
    ensures parts != []
  {
    if s == "" then [""]
    else
      var rest := Split(s[1..]);
      if s[0] == ' ' then [""] + rest else [[s[0]] + rest[0]] + rest[1..]
  }

  /** The identifiers of all parts that are not empty, or nothing when one of them is none. */
  function Identifiers(parts: seq<string>, beyond: Charset): (r: Option<seq<string>>)
    ensures r.Some? ==> AllValid(r.value)
  {
    if parts == [] then Some([])
    else if parts[0] == "" then Identifiers(parts[1..], beyond)
    else
      var first, rest := MessageId(parts[0], beyond), Identifiers(parts[1..], beyond);
      if first.Some? && rest.Some? then Some([first.value] + rest.value) else None
  }

  function References(value: string, maximum: nat, beyond: Charset): (r: Option<seq<string>>)
    ensures r.Some? ==> AllValid(r.value) && 1 <= |r.value| <= maximum
  {
    match Unfold(value, MAX_HEADER_CHARACTERS, beyond)
    case None => None
    case Some(unfolded) =>
      var ids := Identifiers(Split(unfolded), beyond);
      if ids.Some? && 1 <= |ids.value| <= maximum then ids else None
  }

  // ---------------------------------------------------------------- printing

  /** White space as a header may be folded with it: blanks, and line breaks that a blank follows. */
  predicate Folding(s: string) {
    if s == "" then true
    else if White(s[0]) then Folding(s[1..])
    else AtFold(s) && Folding(s[3..])
  }

  /** Identifiers with a separator behind each but the last. */
  function Print(ids: seq<string>, separators: seq<string>): string
    requires ids != [] && |separators| == |ids| - 1
  {
    if |ids| == 1 then ids[0] else ids[0] + (separators[0] + Print(ids[1..], separators[1..]))
  }

  function Joined(ids: seq<string>): string {
    if ids == [] then "" else if |ids| == 1 then ids[0] else ids[0] + (" " + Joined(ids[1..]))
  }

  // ---------------------------------------------------------------- one identifier

  /** No character of an identifier is white space, a line break or unsafe. */
  predicate Plain(c: char) { 33 <= c as int <= 126 }

  lemma AtomIsPlain(c: char)
    requires AtomCharacter(c)
    ensures Plain(c)
  {
  }

  lemma DotAtomIsPlain(s: string)
    requires DotAtom(s)
    ensures AllPlain(s)
  {
    hide AtomCharacter;
    forall i | 0 <= i < |s| ensures Plain(s[i]) { if s[i] != '.' { AtomIsPlain(s[i]); } }
  }

  lemma IdIsPlain(id: string)
    requires IsMessageId(id)
    ensures id != "" && !Space(id[0]) && !Space(id[|id| - 1]) && AllPlain(id)
  {
    hide DotAtom;
    var at :| 1 <= at < |id| - 1 && id[at] == '@' && DotAtom(id[1..at]) && DotAtom(id[at + 1..|id| - 1]);
    DotAtomIsPlain(id[1..at]);
    DotAtomIsPlain(id[at + 1..|id| - 1]);
    forall i | 0 <= i < |id| ensures Plain(id[i]) {
      if 1 <= i < at { assert id[1..at][i - 1] == id[i]; }
      if at < i < |id| - 1 { assert id[at + 1..|id| - 1][i - at - 1] == id[i]; }
    }
  }

  predicate AllPlain(s: string) { forall i :: 0 <= i < |s| ==> Plain(s[i]) }

  /** Unfolding walks over plain characters. */
  lemma {:induction false} SubstitutePlain(word: string, rest: string)
    requires AllPlain(word)
    ensures Substitute(word + rest) == word + Substitute(rest)
  {
    if word == "" { assert word + rest == rest; }
    else {
      var s := word + rest;
      assert s[0] == word[0] && s[1..] == word[1..] + rest;
      assert Plain(word[0]) && s[0] != '\r';
      SubstitutePlain(word[1..], rest);
      assert [word[0]] + (word[1..] + Substitute(rest)) == word + Substitute(rest);
    }
  }

  lemma {:induction false} DetabConcat(a: string, b: string)
    ensures Detab(a + b) == Detab(a) + Detab(b)
  {
    if a == "" { assert a + b == b; }
    else {
      assert (a + b)[0] == a[0] && (a + b)[1..] == a[1..] + b;
      DetabConcat(a[1..], b);
    }
  }

  lemma {:induction false} DetabPlain(word: string)
    requires AllPlain(word)
    ensures Detab(word) == word
  {
    if word != "" {
      assert Plain(word[0]);
      assert AllPlain(word[1..]) by { forall i | 0 <= i < |word[1..]| ensures Plain(word[1..][i]) { assert Plain(word[i + 1]); } }
      DetabPlain(word[1..]);
    }
  }

  lemma PlainIsSafe(c: char, beyond: Charset)
    requires Plain(c) || c == ' '
    ensures Safe(c, beyond)
  {
  }

  lemma StripNothing(s: string)
    requires s != "" && !Space(s[0]) && !Space(s[|s| - 1])
    ensures StripRight(StripLeft(s)) == s
  {
  }

  /** An identifier is what it parses to. */
  lemma MessageIdOfId(id: string, beyond: Charset)
    requires ValidId(id)
    ensures MessageId(id, beyond) == Some(id)
  {
    hide IsMessageId;
    IdIsPlain(id);
    assert id + "" == id;
    SubstitutePlain(id, "");
    DetabPlain(id);
    forall i | 0 <= i < |id| ensures Safe(id[i], beyond) { PlainIsSafe(id[i], beyond); }
    StripNothing(id);
  }

  // ---------------------------------------------------------------- separators

  predicate AllSpaces(s: string) { forall i :: 0 <= i < |s| ==> s[i] == ' ' }

  lemma SubstituteStep(s: string)
    requires s != ""
    ensures Substitute(s) == if AtFold(s) then " " + Substitute(SkipWhite(s[2..])) else [s[0]] + Substitute(s[1..])
  {
  }

  lemma BlankInFront(c: char, blanks: string)
    requires White(c) && AllSpaces(Detab(blanks))
    ensures AllSpaces(Detab([c] + blanks))
  {
    assert ([c] + blanks)[1..] == blanks;
  }

  /** A separator unfolds to spaces, as long as what follows it is no white space. */
  lemma {:induction false} SubstituteFolding(fold: string, rest: string) returns (blanks: string)
    requires Folding(fold) && rest != "" && Plain(rest[0])
    ensures Substitute(fold + rest) == blanks + Substitute(rest)
    ensures AllSpaces(Detab(blanks)) && (fold != "" ==> blanks != "")
    decreases |fold|
  {
    hide Substitute, SkipWhite;
    var s := fold + rest;
    if fold == "" {
      blanks := "";
      assert s == rest && "" + Substitute(rest) == Substitute(rest);
    } else {
      SubstituteStep(s);
      var c, more := ' ', "";
      if White(fold[0]) {
        assert s[1..] == fold[1..] + rest;
        c := fold[0];
        more := SubstituteFolding(fold[1..], rest);
      } else {
        assert s[2] == fold[2] && s[2..] == fold[2..] + rest;
        var left := SkipsToFolding(fold[2..], rest);
        more := SubstituteFolding(left, rest);
      }
      blanks := [c] + more;
      BlankInFront(c, more);
      assert blanks + Substitute(rest) == [c] + (more + Substitute(rest));
    }
  }

  /** What is left of a separator behind a run of blanks is a separator again. */
  lemma {:induction false} SkipsToFolding(fold: string, rest: string) returns (left: string)
    requires Folding(fold) && rest != "" && Plain(rest[0])
    ensures SkipWhite(fold + rest) == left + rest && Folding(left) && |left| <= |fold|
  {
    var s := fold + rest;
    if fold == "" {
      left := "";
      assert s == rest && left + rest == rest;
    } else if White(fold[0]) {
      assert s[0] == fold[0] && s[1..] == fold[1..] + rest;
      left := SkipsToFolding(fold[1..], rest);
    } else {
      assert s[0] == fold[0];
      left := fold;
    }
  }

  // ---------------------------------------------------------------- whole chains

  predicate AllFolds(separators: seq<string>) {
    forall i :: 0 <= i < |separators| ==> separators[i] != "" && Folding(separators[i])
  }

  predicate AllGaps(gaps: seq<string>) { forall i :: 0 <= i < |gaps| ==> gaps[i] != "" && AllSpaces(gaps[i]) }

  lemma PrintStarts(ids: seq<string>, separators: seq<string>)
    requires ids != [] && AllValid(ids) && |separators| == |ids| - 1
    ensures Print(ids, separators) != "" && Plain(Print(ids, separators)[0])
  {
    hide IsMessageId;
    IdIsPlain(ids[0]);
  }

  /** A folded chain unfolds to the same identifiers with spaces between them. */
  lemma {:induction false} UnfoldsToGaps(ids: seq<string>, separators: seq<string>) returns (gaps: seq<string>)
    requires ids != [] && AllValid(ids) && |separators| == |ids| - 1 && AllFolds(separators)
    ensures |gaps| == |ids| - 1 && AllGaps(gaps)
    ensures Detab(Substitute(Print(ids, separators))) == Print(ids, gaps)
  {
    hide IsMessageId, Detab, Substitute, Folding;
    var id := ids[0];
    IdIsPlain(id);
    DetabPlain(id);
    if |ids| == 1 {
      assert id + "" == id;
      SubstitutePlain(id, "");
      SubstituteEmpty();
      gaps := [];
    } else {
      var rest := Print(ids[1..], separators[1..]);
      PrintStarts(ids[1..], separators[1..]);
      SubstitutePlain(id, separators[0] + rest);
      var blanks := SubstituteFolding(separators[0], rest);
      DetabConcat(id, blanks + Substitute(rest));
      DetabConcat(blanks, Substitute(rest));
      var more := UnfoldsToGaps(ids[1..], separators[1..]);
      gaps := [Detab(blanks)] + more;
      assert gaps[1..] == more;
    }
  }

  lemma SubstituteEmpty()
    ensures Substitute("") == ""
  {
  }

  lemma {:induction false} SplitWord(word: string, rest: string)
    requires AllPlain(word)
    ensures Split(word + rest) == [word + Split(rest)[0]] + Split(rest)[1..]
  {
    var s := word + rest;
    if word == "" {
      assert s == rest && Split(rest) == [Split(rest)[0]] + Split(rest)[1..] && "" + Split(rest)[0] == Split(rest)[0];
    } else {
      assert s[0] == word[0] && s[1..] == word[1..] + rest && Plain(word[0]);
      SplitWord(word[1..], rest);
      assert [word[0]] + (word[1..] + Split(rest)[0]) == word + Split(rest)[0];
    }
  }

  /** Spaces in front of a part only add empty parts. */
  lemma {:induction false} SkipGap(gap: string, rest: string, beyond: Charset)
    requires AllSpaces(gap)
    ensures Identifiers(Split(gap + rest), beyond) == Identifiers(Split(rest), beyond)
  {
    hide MessageId;
    var s := gap + rest;
    if gap == "" { assert s == rest; }
    else {
      assert s[0] == ' ' && s[1..] == gap[1..] + rest;
      assert ([""] + Split(s[1..]))[1..] == Split(s[1..]);
      SkipGap(gap[1..], rest, beyond);
    }
  }

  lemma WordBeforeGap(word: string, gap: string, rest: string, beyond: Charset)
    requires ValidId(word) && gap != "" && AllSpaces(gap)
    ensures Identifiers(Split(word + (gap + rest)), beyond) ==
            match Identifiers(Split(rest), beyond)
            case Some(ids) => Some([word] + ids)
            case None => None
  {
    hide MessageId, IsMessageId;
    IdIsPlain(word);
    MessageIdOfId(word, beyond);
    var tail := gap + rest;
    assert tail[0] == ' ' && tail[1..] == gap[1..] + rest;
    SplitWord(word, tail);
    assert Split(tail) == [""] + Split(tail[1..]);
    assert word + "" == word;
    var parts := [word] + Split(tail[1..]);
    assert Split(word + tail) == parts && parts[1..] == Split(tail[1..]);
    SkipGap(gap[1..], rest, beyond);
  }

  /** Splitting a chain with spaces between its identifiers finds exactly these. */
  lemma {:induction false} IdentifiersOfGaps(ids: seq<string>, gaps: seq<string>, beyond: Charset)
    requires ids != [] && AllValid(ids) && |gaps| == |ids| - 1 && AllGaps(gaps)
    ensures Identifiers(Split(Print(ids, gaps)), beyond) == Some(ids)
  {
    hide MessageId, IsMessageId, Split, AllSpaces;
    if |ids| == 1 {
      OneWord(ids[0], beyond);
      assert ids == [ids[0]];
    } else {
      IdentifiersOfGaps(ids[1..], gaps[1..], beyond);
      WordBeforeGap(ids[0], gaps[0], Print(ids[1..], gaps[1..]), beyond);
      assert ids == [ids[0]] + ids[1..];
    }
  }

  lemma OneWord(word: string, beyond: Charset)
    requires ValidId(word)
    ensures Identifiers(Split(word), beyond) == Some([word])
  {
    hide MessageId, IsMessageId;
    IdIsPlain(word);
    MessageIdOfId(word, beyond);
    assert word + "" == word;
    SplitWord(word, "");
    assert Split(word) == [word] && [word][1..] == [];
  }

  predicate SpacedPlain(s: string) { forall i :: 0 <= i < |s| ==> Plain(s[i]) || s[i] == ' ' }

  lemma {:induction false} GapsAreSafe(ids: seq<string>, gaps: seq<string>)
    requires ids != [] && AllValid(ids) && |gaps| == |ids| - 1 && AllGaps(gaps)
    ensures
      var s := Print(ids, gaps);
      s != "" && !Space(s[0]) && !Space(s[|s| - 1]) && SpacedPlain(s)
  {
    hide IsMessageId, Space, Plain;
    IdIsPlain(ids[0]);
    if |ids| > 1 { GapsAreSafe(ids[1..], gaps[1..]); }
  }

  /** Parsing inverts printing, whatever folding white space stands between the identifiers. */
  lemma ReferencesOfPrint(ids: seq<string>, separators: seq<string>, maximum: nat, beyond: Charset)
    requires 1 <= |ids| <= maximum && AllValid(ids) && |separators| == |ids| - 1 && AllFolds(separators)
    requires |Print(ids, separators)| <= MAX_HEADER_CHARACTERS
    ensures References(Print(ids, separators), maximum, beyond) == Some(ids)
  {
    hide IsMessageId, Detab, Substitute, Folding, Print, Identifiers, Split, Space, Plain, Safe, StripLeft, StripRight;
    var gaps := UnfoldsToGaps(ids, separators);
    var unfolded := Print(ids, gaps);
    GapsAreSafe(ids, gaps);
    forall i | 0 <= i < |unfolded| ensures Safe(unfolded[i], beyond) { PlainIsSafe(unfolded[i], beyond); }
    StripNothing(unfolded);
    IdentifiersOfGaps(ids, gaps, beyond);
  }

  // ---------------------------------------------------------------- single spaces

  function Singles(n: nat): (s: seq<string>)
    ensures |s| == n && AllFolds(s)
  {
    seq(n, _ => " ")
  }

  lemma {:induction false} JoinedIsPrinted(ids: seq<string>)
    requires ids != []
    ensures Joined(ids) == Print(ids, Singles(|ids| - 1))
  {
    if |ids| > 1 {
      assert Singles(|ids| - 1)[1..] == Singles(|ids| - 2);
      JoinedIsPrinted(ids[1..]);
    }
  }

  /** Parsing inverts joining with single spaces. */
  lemma ReferencesOfJoined(ids: seq<string>, maximum: nat, beyond: Charset)
    requires 1 <= |ids| <= maximum && AllValid(ids) && |Joined(ids)| <= MAX_HEADER_CHARACTERS
    ensures References(Joined(ids), maximum, beyond) == Some(ids)
  {
    hide References, Joined, Print;
    JoinedIsPrinted(ids);
    ReferencesOfPrint(ids, Singles(|ids| - 1), maximum, beyond);
  }

  function Weight(parts: seq<string>): nat {
    if parts == [] then 0 else |parts[0]| + 1 + Weight(parts[1..])
  }

  lemma {:induction false} SplitWeighs(s: string)
    ensures Weight(Split(s)) == |s| + 1
  {
    if s == "" {
      assert [""][1..] == [];
    } else {
      SplitWeighs(s[1..]);
      var rest := Split(s[1..]);
      if s[0] == ' ' { assert ([""] + rest)[1..] == rest; }
      else { assert ([[s[0]] + rest[0]] + rest[1..])[1..] == rest[1..]; }
    }
  }

  lemma {:induction false} IdentifiersWeigh(parts: seq<string>, beyond: Charset)
    requires Identifiers(parts, beyond).Some?
    ensures Identifiers(parts, beyond).value != [] ==> |Joined(Identifiers(parts, beyond).value)| < Weight(parts)
  {
    hide MessageId, IsMessageId;
    if parts != [] {
      IdentifiersWeigh(parts[1..], beyond);
      var ids := Identifiers(parts, beyond).value;
      if parts[0] != "" {
        var rest := Identifiers(parts[1..], beyond).value;
        assert ids[1..] == rest;
        if rest == [] { assert |Joined(ids)| == |ids[0]|; }
      }
    }
  }

  /** Whatever was parsed can be printed within the limit, and parses to itself again. */
  lemma ParsedPrintsBack(value: string, maximum: nat, beyond: Charset)
    requires References(value, maximum, beyond).Some?
    ensures
      var ids := References(value, maximum, beyond).value;
      |Joined(ids)| <= |value| && References(Joined(ids), maximum, beyond) == Some(ids)
  {
    hide IsMessageId, Unfold, Identifiers, Split, Joined;
    var unfolded := Unfold(value, MAX_HEADER_CHARACTERS, beyond).value;
    SplitWeighs(unfolded);
    IdentifiersWeigh(Split(unfolded), beyond);
    ReferencesOfJoined(References(value, maximum, beyond).value, maximum, beyond);
  }

  // ---------------------------------------------------------------- what an identifier is made of

  /** Letters, digits and the nineteen specials of an atom. */
  predicate InAtom(c: char) {
    || 'a' <= c <= 'z' || 'A' <= c <= 'Z' || '0' <= c <= '9'
    || c in {'!', '#', '$', '%', '&', '\'', '*', '+', '/', '=', '?', '^', '_', '`', '{', '|', '}', '~', '-'}
  }

  predicate Atom(s: string) { s != "" && forall i :: 0 <= i < |s| ==> InAtom(s[i]) }

  function Dotted(atoms: seq<string>): string
    requires atoms != []
  {
    if |atoms| == 1 then atoms[0] else atoms[0] + ("." + Dotted(atoms[1..]))
  }

  lemma AtomCharacterExactly(c: char)
    ensures AtomCharacter(c) <==> InAtom(c)
  {
  }

  lemma AtomIsDotAtom(s: string)
    requires Atom(s)
    ensures DotAtom(s)
  {
    forall i | 0 <= i < |s| ensures AtomCharacter(s[i]) && s[i] != '.' {
      assert InAtom(s[i]);
      AtomCharacterExactly(s[i]);
    }
    hide AtomCharacter, Atom, InAtom;
  }

  lemma DotsJoin(a: string, b: string)
    requires DotAtom(a) && DotAtom(b)
    ensures DotAtom(a + ("." + b))
  {
    hide AtomCharacter;
    var s := a + ("." + b);
    forall i | 0 <= i < |s| ensures AtomCharacter(s[i]) || s[i] == '.' {
      if i < |a| { assert s[i] == a[i]; } else if i > |a| { assert s[i] == b[i - |a| - 1]; }
    }
    forall i | 0 <= i < |s| - 1 ensures s[i] != '.' || s[i + 1] != '.' {
      if i + 1 < |a| { assert s[i] == a[i] && s[i + 1] == a[i + 1]; }
      else if i > |a| { assert s[i] == b[i - |a| - 1] && s[i + 1] == b[i - |a|]; }
    }
  }

  lemma {:induction false} DottedIsDotAtom(atoms: seq<string>)
    requires atoms != [] && forall i :: 0 <= i < |atoms| ==> Atom(atoms[i])
    ensures DotAtom(Dotted(atoms))
  {
    hide DotAtom, Atom;
    AtomIsDotAtom(atoms[0]);
    if |atoms| > 1 {
      DottedIsDotAtom(atoms[1..]);
      DotsJoin(atoms[0], Dotted(atoms[1..]));
    }
  }

  lemma DottedExtends(c: string, atoms: seq<string>)
    requires atoms != []
    ensures Dotted([c + atoms[0]] + atoms[1..]) == c + Dotted(atoms)
  {
    assert ([c + atoms[0]] + atoms[1..])[1..] == atoms[1..];
  }

  lemma DotAtomTail(s: string, k: nat)
    requires DotAtom(s) && k < |s| && s[k] != '.'
    ensures DotAtom(s[k..])
  {
    hide AtomCharacter;
  }

  lemma OneAtom(c: char)
    requires AtomCharacter(c)
    ensures Atom([c]) && forall s :: Atom(s) ==> Atom([c] + s)
  {
    AtomCharacterExactly(c);
    hide InAtom;
  }

  lemma {:induction false} DotAtomIsDotted(s: string) returns (atoms: seq<string>)
    requires DotAtom(s)
    ensures atoms != [] && Dotted(atoms) == s && forall i :: 0 <= i < |atoms| ==> Atom(atoms[i])
  {
    assert AtomCharacter(s[0]);
    OneAtom(s[0]);
    hide AtomCharacter, Atom;
    if |s| == 1 {
      atoms := [s];
      assert s == [s[0]];
    } else if s[1] == '.' {
      assert s[2] != '.';
      DotAtomTail(s, 2);
      var rest := DotAtomIsDotted(s[2..]);
      atoms := [[s[0]]] + rest;
      assert atoms[1..] == rest;
      assert s == [s[0]] + ("." + s[2..]);
    } else {
      DotAtomTail(s, 1);
      var rest := DotAtomIsDotted(s[1..]);
      atoms := [[s[0]] + rest[0]] + rest[1..];
      DottedExtends([s[0]], rest);
      assert s == [s[0]] + s[1..];
    }
  }

  /** The dot-atoms of section 3.2.3 of RFC 5322: atoms with single dots between them. */
  lemma DotAtomExactly(s: string)
    ensures DotAtom(s) <==> exists atoms: seq<string> ::
      atoms != [] && Dotted(atoms) == s && forall i :: 0 <= i < |atoms| ==> Atom(atoms[i])
  {
    hide DotAtom, Atom, Dotted;
    if DotAtom(s) { var atoms := DotAtomIsDotted(s); }
    forall atoms: seq<string> | atoms != [] && Dotted(atoms) == s && forall i :: 0 <= i < |atoms| ==> Atom(atoms[i])
      ensures DotAtom(s)
    {
      DottedIsDotAtom(atoms);
    }
  }

  // ---------------------------------------------------------------- no header is injected

  /** Every line break is whole and a blank follows it: there is no second header line. */
  predicate OneHeader(s: string) {
    && (forall i :: 0 <= i < |s| && s[i] == '\r' ==> i + 2 < |s| && s[i + 1] == '\n' && s[i + 2] in " \t")
    && (forall i :: 0 <= i < |s| && s[i] == '\n' ==> i > 0 && s[i - 1] == '\r')
  }

  predicate NoBreaks(s: string) { forall i :: 0 <= i < |s| ==> s[i] != '\r' && s[i] != '\n' }

  lemma {:induction false} SkipWhiteSkips(s: string) returns (k: nat)
    ensures k <= |s| && SkipWhite(s) == s[k..] && forall i :: 0 <= i < k ==> White(s[i])
  {
    if s != "" && White(s[0]) {
      var more := SkipWhiteSkips(s[1..]);
      k := more + 1;
      forall i | 0 < i < k ensures White(s[i]) { assert s[1..][i - 1] == s[i]; }
    } else {
      k := 0;
    }
  }

  lemma OneHeaderBehindFold(s: string, k: nat)
    requires AtFold(s) && 3 <= k <= |s| && (forall i :: 2 <= i < k ==> White(s[i])) && OneHeader(s[k..])
    ensures OneHeader(s)
  {
    forall i | k <= i < |s| ensures s[i] == s[k..][i - k] {}
  }

  lemma OneHeaderBehind(s: string)
    requires s != "" && s[0] != '\r' && s[0] != '\n' && OneHeader(s[1..])
    ensures OneHeader(s)
  {
    forall i | 1 <= i < |s| ensures s[i] == s[1..][i - 1] {}
  }

  lemma {:induction false} UnfoldedIsOneHeader(s: string)
    requires NoBreaks(Substitute(s))
    ensures OneHeader(s)
    decreases |s|
  {
    if s != "" {
      SubstituteStep(s);
      hide OneHeader, Substitute;
      if AtFold(s) {
        var k := SkipWhiteSkips(s[2..]);
        var rest := SkipWhite(s[2..]);
        assert White(s[2..][0]);
        assert rest == s[2 + k..] && k > 0;
        assert forall i :: 0 <= i < |Substitute(rest)| ==> Substitute(rest)[i] == Substitute(s)[i + 1];
        UnfoldedIsOneHeader(rest);
        forall i | 2 <= i < 2 + k ensures White(s[i]) { assert s[2..][i - 2] == s[i]; }
        OneHeaderBehindFold(s, 2 + k);
      } else {
        assert Substitute(s)[0] == s[0];
        assert forall i :: 0 <= i < |Substitute(s[1..])| ==> Substitute(s[1..])[i] == Substitute(s)[i + 1];
        UnfoldedIsOneHeader(s[1..]);
        OneHeaderBehind(s);
      }
    } else {
      assert OneHeader("");
    }
  }

  lemma {:induction false} DetabAt(s: string, i: nat)
    requires i < |s|
    ensures Detab(s)[i] == if s[i] == '\t' then ' ' else s[i]
  {
    if i > 0 { DetabAt(s[1..], i - 1); }
  }

  /** A header that is accepted is within its limit and one header: lone line breaks and injected lines are refused. */
  lemma AcceptedIsOneHeader(value: string, maximum: nat, beyond: Charset)
    ensures References(value, maximum, beyond).Some? ==> |value| <= 8192 && OneHeader(value)
    ensures MessageId(value, beyond).Some? ==> |value| <= 985 && OneHeader(value)
  {
    hide IsMessageId, Identifiers, Split, OneHeader, Substitute, Detab;
    if Unfold(value, MAX_HEADER_CHARACTERS, beyond).Some? || Unfold(value, MAX_MESSAGE_ID_CHARACTERS, beyond).Some? {
      var unfolded := Substitute(value);
      forall i | 0 <= i < |unfolded| ensures unfolded[i] != '\r' && unfolded[i] != '\n' {
        DetabAt(unfolded, i);
        assert Safe(Detab(unfolded)[i], beyond);
      }
      UnfoldedIsOneHeader(value);
    }
  }

  // ---------------------------------------------------------------- white space around an identifier

  lemma {:induction false} StripLeftSkips(blanks: string, rest: string)
    requires AllSpaces(blanks) && rest != "" && !Space(rest[0])
    ensures StripLeft(blanks + rest) == rest
  {
    if blanks == "" {
      assert blanks + rest == rest;
    } else {
      assert (blanks + rest)[1..] == blanks[1..] + rest;
      StripLeftSkips(blanks[1..], rest);
    }
  }

  lemma {:induction false} StripRightSkips(rest: string, blanks: string)
    requires AllSpaces(blanks) && rest != "" && !Space(rest[|rest| - 1])
    ensures StripRight(rest + blanks) == rest
    decreases |blanks|
  {
    if blanks == "" {
      assert rest + blanks == rest;
    } else {
      var n := |blanks| - 1;
      assert (rest + blanks)[..|rest| + n] == rest + blanks[..n];
      StripRightSkips(rest, blanks[..n]);
    }
  }

  lemma {:induction false} WhiteUnfolds(after: string)
    requires forall i :: 0 <= i < |after| ==> White(after[i])
    ensures Substitute(after) == after && AllSpaces(Detab(after))
  {
    if after != "" {
      WhiteUnfolds(after[1..]);
      assert after == [after[0]] + after[1..] && !AtFold(after);
      BlankInFront(after[0], after[1..]);
    }
  }

  lemma PaddedUnfolds(before: string, id: string, after: string) returns (left: string, right: string)
    requires Folding(before) && id != "" && AllPlain(id) && forall i :: 0 <= i < |after| ==> White(after[i])
    ensures AllSpaces(left) && AllSpaces(right)
    ensures Detab(Substitute(before + (id + after))) == left + (id + right)
  {
    hide Folding, Substitute, Detab, White, AllSpaces;
    var rest := id + after;
    assert rest[0] == id[0];
    var blanks := SubstituteFolding(before, rest);
    SubstitutePlain(id, after);
    WhiteUnfolds(after);
    left, right := Detab(blanks), Detab(after);
    DetabConcat(blanks, id + after);
    DetabConcat(id, after);
    DetabPlain(id);
  }

  lemma PaddedIsSafe(left: string, id: string, right: string, beyond: Charset)
    requires AllSpaces(left) && AllSpaces(right) && AllPlain(id)
    ensures forall i :: 0 <= i < |left + (id + right)| ==> Safe((left + (id + right))[i], beyond)
  {
    hide Safe, Plain;
    forall i | 0 <= i < |left + (id + right)| ensures Safe((left + (id + right))[i], beyond) {
      PlainIsSafe((left + (id + right))[i], beyond);
    }
  }

  lemma PaddedStrips(left: string, id: string, right: string)
    requires AllSpaces(left) && AllSpaces(right) && id != "" && !Space(id[0]) && !Space(id[|id| - 1])
    ensures StripRight(StripLeft(left + (id + right))) == id
  {
    hide AllSpaces, Space, StripLeft, StripRight;
    assert (id + right)[0] == id[0];
    StripLeftSkips(left, id + right);
    StripRightSkips(id, right);
  }

  /** White space around an identifier, even folded in front of it, does not matter. */
  lemma MessageIdOfPadded(before: string, id: string, after: string, beyond: Charset)
    requires ValidId(id) && Folding(before) && forall i :: 0 <= i < |after| ==> White(after[i])
    requires |before + (id + after)| <= 985
    ensures MessageId(before + (id + after), beyond) == Some(id)
  {
    IdIsPlain(id);
    hide IsMessageId, Folding, Substitute, Detab, StripLeft, StripRight, White, AllPlain, AllSpaces, Space, Safe;
    var left, right := PaddedUnfolds(before, id, after);
    PaddedIsSafe(left, id, right, beyond);
    PaddedStrips(left, id, right);
    SubstituteShrinks(before + (id + after));
  }

  lemma SubstituteShrinks(s: string)
    ensures |Detab(Substitute(s))| <= |s|
  {
  }

  // ---------------------------------------------------------------- nothing is dropped

  function Words(parts: seq<string>): (words: seq<string>)
    ensures forall i :: 0 <= i < |words| ==> words[i] != ""
  {
    if parts == [] then [] else (if parts[0] == "" then [] else [parts[0]]) + Words(parts[1..])
  }

  /** Splitting cuts at every space and nowhere else. */
  lemma {:induction false} SplitExactly(s: string)
    ensures Joined(Split(s)) == s
    ensures forall i :: 0 <= i < |Split(s)| ==> ' ' !in Split(s)[i]
  {
    if s != "" {
      SplitExactly(s[1..]);
      var rest := Split(s[1..]);
      assert s == [s[0]] + s[1..];
      if s[0] == ' ' {
        assert ([""] + rest)[1..] == rest;
      } else {
        var parts := [[s[0]] + rest[0]] + rest[1..];
        assert parts[1..] == rest[1..];
        if |rest| == 1 {
          assert Joined(parts) == [s[0]] + rest[0];
        } else {
          assert ([s[0]] + rest[0]) + (" " + Joined(rest[1..])) == [s[0]] + (rest[0] + (" " + Joined(rest[1..])));
        }
      }
    }
  }

  predicate AllIdentify(words: seq<string>, beyond: Charset) {
    forall i :: 0 <= i < |words| ==> MessageId(words[i], beyond).Some?
  }

  lemma AllIdentifyCons(word: string, later: seq<string>, beyond: Charset)
    ensures AllIdentify([word] + later, beyond) <==> MessageId(word, beyond).Some? && AllIdentify(later, beyond)
  {
    hide MessageId;
    var words := [word] + later;
    if AllIdentify(words, beyond) {
      assert words[0] == word;
      forall i | 0 <= i < |later| ensures MessageId(later[i], beyond).Some? { assert words[i + 1] == later[i]; }
    }
  }

  /** Every part that is not empty must be an identifier, and each gives one, in order. */
  lemma {:induction false} IdentifiersExactly(parts: seq<string>, beyond: Charset)
    ensures
      var words, ids := Words(parts), Identifiers(parts, beyond);
      && (ids.Some? <==> AllIdentify(words, beyond))
      && (ids.Some? ==> |ids.value| == |words| && forall i :: 0 <= i < |words| ==> MessageId(words[i], beyond) == Some(ids.value[i]))
  {
    hide MessageId, IsMessageId, AllIdentify;
    if parts == [] {
      NoneToIdentify(beyond);
    } else {
      var later := Words(parts[1..]);
      IdentifiersExactly(parts[1..], beyond);
      if parts[0] != "" {
        assert Words(parts) == [parts[0]] + later;
        AllIdentifyCons(parts[0], later, beyond);
      } else {
        assert Words(parts) == [] + later == later;
      }
    }
  }

  lemma NoneToIdentify(beyond: Charset)
    ensures AllIdentify([], beyond)
  {
  }

  lemma {:induction false} StripLeftExactly(s: string) returns (n: nat)
    ensures n <= |s| && StripLeft(s) == s[n..] && forall i :: 0 <= i < n ==> Space(s[i])
  {
    n := 0;
    if s != "" && Space(s[0]) {
      hide Space;
      var m := StripLeftExactly(s[1..]);
      assert s[1..][m..] == s[m + 1..];
      n := m + 1;
      forall i | 0 < i < n ensures Space(s[i]) { assert s[1..][i - 1] == s[i]; }
    }
  }

  lemma {:induction false} StripRightExactly(s: string) returns (n: nat)
    ensures n <= |s| && StripRight(s) == s[..n] && forall i :: n <= i < |s| ==> Space(s[i])
  {
    n := |s|;
    if s != "" && Space(s[|s| - 1]) {
      hide Space;
      n := StripRightExactly(s[..|s| - 1]);
      forall i | n <= i < |s| - 1 ensures Space(s[i]) { assert s[..|s| - 1][i] == s[i]; }
    }
  }

  /** An identifier is all there is to its header, once it is unfolded, but for white space around it. */
  lemma IdentifierIsWhole(value: string, beyond: Charset) returns (from: nat, to: nat)
    requires MessageId(value, beyond).Some?
    ensures
      var unfolded := Detab(Substitute(value));
      && from <= to <= |unfolded| && MessageId(value, beyond).value == unfolded[from..to]
      && forall i :: 0 <= i < from || to <= i < |unfolded| ==> Space(unfolded[i])
  {
    hide IsMessageId, Substitute, Detab, StripLeft, StripRight, Space;
    var unfolded := Detab(Substitute(value));
    from := StripLeftExactly(unfolded);
    var length := StripRightExactly(StripLeft(unfolded));
    to := from + length;
    forall i | to <= i < |unfolded| ensures Space(unfolded[i]) { assert unfolded[from..][i - from] == unfolded[i]; }
  }

  /**
   * No part of an accepted chain is dropped: its unfolded header is, between spaces, just as many
   * words as there are identifiers, and each word is its identifier.
   */
  lemma NothingIsDropped(value: string, maximum: nat, beyond: Charset)
    requires References(value, maximum, beyond).Some?
    ensures
      var ids, header := References(value, maximum, beyond).value, StripRight(StripLeft(Detab(Substitute(value))));
      exists parts ::
        && Joined(parts) == header && (forall i :: 0 <= i < |parts| ==> ' ' !in parts[i])
        && |Words(parts)| == |ids| && forall i :: 0 <= i < |ids| ==> MessageId(Words(parts)[i], beyond) == Some(ids[i])
  {
    hide MessageId, IsMessageId, Substitute, Detab, StripLeft, StripRight, Split, Joined, Identifiers, Words;
    var header := StripRight(StripLeft(Detab(Substitute(value))));
    SplitExactly(header);
    IdentifiersExactly(Split(header), beyond);
  }
}
