/**
 Shell command building (src/commands.c) and, as its independent partner, the quote-processing
 part of the POSIX shell lexer: sections 2.2.1 (Escape Character), 2.2.2 (Single-Quotes) and
 2.3 (Token Recognition) of the Shell Command Language, XCU chapter 2 of POSIX.1-2008.
 */
module Shell {
  import opened Base

  const NUL: byte := 0
  const TAB: byte := 9
  const SPACE: byte := 32
  const QUOTE: byte := 39
  const DASH: byte := 45
  const DOT: byte := 46
  const SLASH: byte := 47
  const GREATER: byte := 62
  const BACKSLASH: byte := 92

  // ---- The lexer ----

  datatype Token = Word(bytes: seq<byte>) | IoNumber(bytes: seq<byte>) | Redirect

  /**
   Where the scan stands: between tokens, just after `>`, inside a word (all of it unquoted
   digits or not), inside single quotes, after a backslash, or stopped at something outside the
   fragment: an unquoted byte that is neither a blank, a quoting character, `>` nor plain text.
   */
  datatype Mode =
    | Between
    | AfterRedirect
    | InWord(word: seq<byte>, digits: bool)
    | InQuotes(word: seq<byte>)
    | Escaped(word: seq<byte>)
    | Stuck

  datatype Scan = Scan(tokens: seq<Token>, mode: Mode)

  predicate Digit(b: byte) { 48 <= b <= 57 }

  /** Bytes that mean themselves when unquoted anywhere in a word. */
  predicate Plain(b: byte) {
    Digit(b) || 65 <= b <= 90 || 97 <= b <= 122 || b == DASH || b == SLASH || b == DOT
  }

  function Step(s: Scan, b: byte): Scan {
    match s.mode
    case Between =>
      if b == SPACE || b == TAB then s
      else if b == GREATER then Scan(s.tokens + [Redirect], AfterRedirect)
      else StartWord(s.tokens, b)
    case AfterRedirect =>
      if b == SPACE || b == TAB then s.(mode := Between)
      else if b == GREATER then s.(mode := Stuck)
      else StartWord(s.tokens, b)
    case InWord(w, digits) =>
      if b == SPACE || b == TAB then Scan(s.tokens + [Word(w)], Between)
      else if b == GREATER then
        Scan(s.tokens + [if digits then IoNumber(w) else Word(w), Redirect], AfterRedirect)
      else if b == QUOTE then s.(mode := InQuotes(w))
      else if b == BACKSLASH then s.(mode := Escaped(w))
      else if Plain(b) then s.(mode := InWord(w + [b], digits && Digit(b)))
      else s.(mode := Stuck)
    case InQuotes(w) =>
      if b == QUOTE then s.(mode := InWord(w, false)) else s.(mode := InQuotes(w + [b]))
    case Escaped(w) =>
      // A backslash before a newline would be a line continuation, which the fragment leaves out.
      if b == 10 then s.(mode := Stuck) else s.(mode := InWord(w + [b], false))
    case Stuck => s
  }

  function StartWord(tokens: seq<Token>, b: byte): Scan {
    Scan(tokens,
         if b == QUOTE then InQuotes([])
         else if b == BACKSLASH then Escaped([])
         else if Plain(b) then InWord([b], Digit(b))
         else Stuck)
  }

  function ScanAll(s: Scan, text: seq<byte>): Scan
    decreases |text|
  {
    if text == [] then s else ScanAll(Step(s, text[0]), text[1..])
  }

  /** The tokens of a command line, or None when it is unterminated or outside the fragment. */
  function Lex(text: seq<byte>): Option<seq<Token>> {
    var s := ScanAll(Scan([], Between), text);
    match s.mode
    case Between => Some(s.tokens)
    case InWord(w, _) => Some(s.tokens + [Word(w)])
    case _ => None
  }

  lemma {:induction false} ScanConcat(s: Scan, a: seq<byte>, b: seq<byte>)
    ensures ScanAll(s, a + b) == ScanAll(ScanAll(s, a), b)
    decreases |a|
  {
    if a == [] {
      assert a + b == b;
    } else {
      assert (a + b)[1..] == a[1..] + b;
      ScanConcat(Step(s, a[0]), a[1..], b);
    }
  }

  lemma ScanOne(s: Scan, b: byte)
    ensures ScanAll(s, [b]) == Step(s, b)
  {
    assert [b][1..] == [];
  }

  predicate PlainWord(word: seq<byte>) {
    word != [] && forall i :: 0 <= i < |word| ==> Plain(word[i])
  }

  predicate AllDigits(text: seq<byte>) {
    forall i :: 0 <= i < |text| ==> Digit(text[i])
  }

  lemma AllDigitsCons(text: seq<byte>)
    requires text != []
    ensures AllDigits(text) <==> Digit(text[0]) && AllDigits(text[1..])
  {
    assert text == [text[0]] + text[1..];
  }

  lemma {:induction false} ScanPlainTail(tokens: seq<Token>, w: seq<byte>, digits: bool, text: seq<byte>)
    requires forall i :: 0 <= i < |text| ==> Plain(text[i])
    ensures ScanAll(Scan(tokens, InWord(w, digits)), text)
         == Scan(tokens, InWord(w + text, digits && AllDigits(text)))
    decreases |text|
  {
    if text == [] {
      assert w + text == w;
    } else {
      ScanPlainTail(tokens, w + [text[0]], digits && Digit(text[0]), text[1..]);
      assert w + [text[0]] + text[1..] == w + text;
      AllDigitsCons(text);
    }
  }

  lemma ScanPlainWord(tokens: seq<Token>, redirected: bool, word: seq<byte>)
    requires PlainWord(word)
    ensures ScanAll(Scan(tokens, if redirected then AfterRedirect else Between), word)
         == Scan(tokens, InWord(word, AllDigits(word)))
  {
    hide AllDigits;
    ScanPlainTail(tokens, [word[0]], Digit(word[0]), word[1..]);
    assert [word[0]] + word[1..] == word;
    AllDigitsCons(word);
  }

  // ---- Quoting ----

  /** The bytes one argument byte becomes inside the quotes. */
  function QuotedByte(b: byte): (q: seq<byte>)
    ensures 1 <= |q| <= 4
  {
    if b == QUOTE then [QUOTE, BACKSLASH, QUOTE, QUOTE] else [b]
  }

  function QuotedBody(argument: seq<byte>): (q: seq<byte>)
    ensures |q| <= 4 * |argument|
  {
    if argument == [] then []
    else QuotedBody(argument[..|argument| - 1]) + QuotedByte(argument[|argument| - 1])
  }

  lemma QuotedBodySnoc(argument: seq<byte>, i: nat)
    requires i < |argument|
    ensures QuotedBody(argument[..i + 1]) == QuotedBody(argument[..i]) + QuotedByte(argument[i])
  {
    assert argument[..i + 1][..i] == argument[..i];
  }

  function Quoted(argument: seq<byte>): seq<byte> {
    [QUOTE] + QuotedBody(argument) + [QUOTE]
  }

  lemma ScanQuotedByte(tokens: seq<Token>, w: seq<byte>, b: byte)
    ensures ScanAll(Scan(tokens, InQuotes(w)), QuotedByte(b)) == Scan(tokens, InQuotes(w + [b]))
  {
    var s := Scan(tokens, InQuotes(w));
    if b == QUOTE {
      assert QuotedByte(b) == [QUOTE] + [BACKSLASH] + [QUOTE] + [QUOTE];
      ScanConcat(s, [QUOTE] + [BACKSLASH] + [QUOTE], [QUOTE]);
      ScanConcat(s, [QUOTE] + [BACKSLASH], [QUOTE]);
      ScanConcat(s, [QUOTE], [BACKSLASH]);
      ScanOne(s, QUOTE);
      ScanOne(Scan(tokens, InWord(w, false)), BACKSLASH);
      ScanOne(Scan(tokens, Escaped(w)), QUOTE);
      ScanOne(Scan(tokens, InWord(w + [b], false)), QUOTE);
    } else {
      ScanOne(s, b);
    }
  }

  /** Scanning the quoted body inside quotes collects exactly the original bytes. */
  lemma {:induction false} ScanQuotedBody(tokens: seq<Token>, w: seq<byte>, argument: seq<byte>)
    ensures ScanAll(Scan(tokens, InQuotes(w)), QuotedBody(argument)) == Scan(tokens, InQuotes(w + argument))
    decreases |argument|
  {
    if argument == [] {
      assert w + argument == w;
    } else {
      var n := |argument| - 1;
      var s := Scan(tokens, InQuotes(w));
      ScanConcat(s, QuotedBody(argument[..n]), QuotedByte(argument[n]));
      ScanQuotedBody(tokens, w, argument[..n]);
      ScanQuotedByte(tokens, w + argument[..n], argument[n]);
      assert w + argument[..n] + [argument[n]] == w + argument;
    }
  }

  /** Lexing a quoted argument yields one word: the argument itself, whatever bytes it holds. */
  lemma ScanQuoted(tokens: seq<Token>, argument: seq<byte>)
    ensures ScanAll(Scan(tokens, Between), Quoted(argument)) == Scan(tokens, InWord(argument, false))
  {
    var s := Scan(tokens, Between);
    ScanConcat(s, [QUOTE] + QuotedBody(argument), [QUOTE]);
    ScanConcat(s, [QUOTE], QuotedBody(argument));
    ScanOne(s, QUOTE);
    ScanQuotedBody(tokens, [], argument);
    assert [] + argument == argument;
    ScanOne(Scan(tokens, InQuotes(argument)), QUOTE);
  }

  // ---- The built command ----

  /** The program and its fixed options, as words; the source spells them with single spaces. */
  type Program = words: seq<seq<byte>> | words != [] && forall i :: 0 <= i < |words| ==> PlainWord(words[i])
    witness [[DASH]]

  function Spelled(words: seq<seq<byte>>): seq<byte> {
    if |words| == 0 then []
    else if |words| == 1 then words[0]
    else Spelled(words[..|words| - 1]) + [SPACE] + words[|words| - 1]
  }

  function Words(words: seq<seq<byte>>): (tokens: seq<Token>)
    ensures |tokens| == |words|
  {
    seq(|words|, i requires 0 <= i < |words| => Word(words[i]))
  }

  /** ` 2>/dev/null` */
  const SUFFIX: seq<byte> := [SPACE, 50, GREATER] + DEV_NULL
  const DEV_NULL: seq<byte> := [SLASH, 100, 101, 118, SLASH, 110, 117, 108, 108]

  /** `ls -1 --` */
  const LS: Program := [[108, 115], [DASH, 49], [DASH, DASH]]
  /** `cat --` */
  const CAT: Program := [[99, 97, 116], [DASH, DASH]]

  function Command(program: Program, argument: seq<byte>): seq<byte> {
    Spelled(program) + [SPACE] + Quoted(argument) + SUFFIX
  }

  lemma {:induction false} ScanProgram(words: Program)
    ensures var n := |words| - 1;
            var s := ScanAll(Scan([], Between), Spelled(words));
            s.tokens == Words(words[..n]) && s.mode.InWord? && s.mode.word == words[n]
    decreases |words|
  {
    var n := |words| - 1;
    if n == 0 {
      ScanPlainWord([], false, words[0]);
    } else {
      var init: Program := words[..n];
      var start := Scan([], Between);
      ScanProgram(init);
      ScanConcat(start, Spelled(init) + [SPACE], words[n]);
      ScanConcat(start, Spelled(init), [SPACE]);
      ScanOne(ScanAll(start, Spelled(init)), SPACE);
      assert Words(words[..n]) == Words(init[..n - 1]) + [Word(init[n - 1])];
      ScanPlainWord(Words(words[..n]), false, words[n]);
    }
  }

  lemma ScanSuffix(tokens: seq<Token>, w: seq<byte>)
    ensures ScanAll(Scan(tokens, InWord(w, false)), SUFFIX)
         == Scan(tokens + [Word(w), IoNumber([50]), Redirect], InWord(DEV_NULL, false))
  {
    var s := Scan(tokens, InWord(w, false));
    var t := tokens + [Word(w)];
    ScanConcat(s, [SPACE, 50, GREATER], DEV_NULL);
    assert [SPACE, 50, GREATER][1..] == [50, GREATER] && [50, GREATER][1..] == [GREATER];
    ScanOne(Scan(t, InWord([50], true)), GREATER);
    assert ScanAll(s, [SPACE, 50, GREATER]) == Scan(t + [IoNumber([50]), Redirect], AfterRedirect);
    assert t + [IoNumber([50]), Redirect] == tokens + [Word(w), IoNumber([50]), Redirect];
    ScanPlainWord(t + [IoNumber([50]), Redirect], true, DEV_NULL);
    assert !Digit(DEV_NULL[0]) && !AllDigits(DEV_NULL);
  }

  /**
   The quoting round trip: the shell sees the program's words, then one word equal to the
   argument byte for byte, then the redirection of standard error, and nothing else.
   */
  lemma CommandLexes(program: Program, argument: seq<byte>)
    ensures Lex(Command(program, argument))
         == Some(Words(program) + [Word(argument), IoNumber([50]), Redirect, Word(DEV_NULL)])
  {
    var start := Scan([], Between);
    var n := |program| - 1;
    var text := Spelled(program) + [SPACE] + Quoted(argument);
    ScanConcat(start, text, SUFFIX);
    ScanConcat(start, Spelled(program) + [SPACE], Quoted(argument));
    ScanConcat(start, Spelled(program), [SPACE]);
    ScanProgram(program);
    ScanOne(ScanAll(start, Spelled(program)), SPACE);
    assert Words(program) == Words(program[..n]) + [Word(program[n])];
    ScanQuoted(Words(program), argument);
    ScanSuffix(Words(program), argument);
    var all := Words(program) + [Word(argument), IoNumber([50]), Redirect];
    assert all + [Word(DEV_NULL)] == Words(program) + [Word(argument), IoNumber([50]), Redirect, Word(DEV_NULL)];
  }

  /** What the shell reads for `ls`: the words ls, -1 and --, the argument, and 2> /dev/null. */
  lemma LsLexes(argument: seq<byte>)
    ensures Lex(Command(LS, argument))
         == Some([Word([108, 115]), Word([45, 49]), Word([45, 45])]
                 + [Word(argument), IoNumber([50]), Redirect, Word([47, 100, 101, 118, 47, 110, 117, 108, 108])])
  {
    CommandLexes(LS, argument);
    hide Command, Lex;
    assert DEV_NULL == [47, 100, 101, 118, 47, 110, 117, 108, 108];
    assert Words(LS) == [Word([108, 115]), Word([45, 49]), Word([45, 45])];
  }

  /** What the shell reads for `cat`: the words cat and --, the argument, and 2> /dev/null. */
  lemma CatLexes(argument: seq<byte>)
    ensures Lex(Command(CAT, argument))
         == Some([Word([99, 97, 116]), Word([45, 45])]
                 + [Word(argument), IoNumber([50]), Redirect, Word([47, 100, 101, 118, 47, 110, 117, 108, 108])])
  {
    CommandLexes(CAT, argument);
    hide Command, Lex;
    assert DEV_NULL == [47, 100, 101, 118, 47, 110, 117, 108, 108];
    assert Words(CAT) == [Word([99, 97, 116]), Word([45, 45])];
  }

  /** Quoting byte by byte: an apostrophe becomes '\'' and any other byte stays. */
  lemma {:induction false} QuotedBytes(a: seq<byte>, b: seq<byte>)
    ensures QuotedBody(a + b) == QuotedBody(a) + QuotedBody(b)
    ensures |b| == 1 ==> QuotedBody(b) == if b[0] == 39 then [39, 92, 39, 39] else b
    decreases |b|
  {
    if b == [] {
      assert a + b == a;
    } else {
      var n := |b| - 1;
      assert (a + b)[..|a + b| - 1] == a + b[..n];
      QuotedBytes(a, b[..n]);
    }
  }

  /** The two command lines as text: the program up to the opening apostrophe, and the end from the closing one. */
  lemma CommandText(argument: seq<byte>)
    ensures Command(LS, argument) == [108, 115, 32, 45, 49, 32, 45, 45, 32, 39] + QuotedBody(argument)
                                     + [39, 32, 50, 62, 47, 100, 101, 118, 47, 110, 117, 108, 108]
    ensures Command(CAT, argument) == [99, 97, 116, 32, 45, 45, 32, 39] + QuotedBody(argument)
                                      + [39, 32, 50, 62, 47, 100, 101, 118, 47, 110, 117, 108, 108]
  {
    hide Spelled, QuotedBody;
    LsSpelled();
    CatSpelled();
    hide LS, CAT;
    var end: seq<byte> := [39, 32, 50, 62, 47, 100, 101, 118, 47, 110, 117, 108, 108];
    assert [QUOTE] + SUFFIX == end;
    assert [108, 115, 32, 45, 49, 32, 45, 45] + [SPACE] + [QUOTE] == [108, 115, 32, 45, 49, 32, 45, 45, 32, 39];
    assert [99, 97, 116, 32, 45, 45] + [SPACE] + [QUOTE] == [99, 97, 116, 32, 45, 45, 32, 39];
    Assembled(Spelled(LS), argument, end);
    Assembled(Spelled(CAT), argument, end);
  }

  lemma Assembled(program: seq<byte>, argument: seq<byte>, end: seq<byte>)
    requires [QUOTE] + SUFFIX == end
    ensures program + [SPACE] + Quoted(argument) + SUFFIX
         == program + [SPACE] + [QUOTE] + QuotedBody(argument) + end
  {
    hide QuotedBody, SUFFIX;
    assert Quoted(argument) + SUFFIX == [QUOTE] + QuotedBody(argument) + ([QUOTE] + SUFFIX);
  }

  lemma LsSpelled()
    ensures Spelled(LS) == [108, 115, 32, 45, 49, 32, 45, 45]
  {
    assert LS[..2][..1] == LS[..1] && Spelled(LS[..1]) == [108, 115];
    assert Spelled(LS[..2]) == [108, 115, 32, 45, 49];
  }

  lemma CatSpelled()
    ensures Spelled(CAT) == [99, 97, 116, 32, 45, 45]
  {
    assert Spelled(CAT[..1]) == [99, 97, 116];
  }

  // ---- C strings ----

  predicate NulFree(text: seq<byte>) {
    NUL !in text
  }

  /** The text a C string holds: everything before the first NUL. */
  function CString(bytes: seq<byte>): seq<byte> {
    if bytes == [] || bytes[0] == NUL then [] else [bytes[0]] + CString(bytes[1..])
  }

  lemma CStringOf(text: seq<byte>, after: seq<byte>)
    requires NulFree(text)
    ensures CString(text + [NUL] + after) == text
  {
    if text != [] {
      assert (text + [NUL] + after)[1..] == text[1..] + [NUL] + after;
      CStringOf(text[1..], after);
    }
  }

  lemma {:induction false} QuotedBodyNulFree(argument: seq<byte>)
    requires NulFree(argument)
    ensures NulFree(QuotedBody(argument))
    decreases |argument|
  {
    if argument != [] {
      QuotedBodyNulFree(argument[..|argument| - 1]);
    }
  }

  lemma {:induction false} SpelledNulFree(words: seq<seq<byte>>)
    requires forall i :: 0 <= i < |words| ==> PlainWord(words[i])
    ensures NulFree(Spelled(words))
    decreases |words|
  {
    if |words| > 1 {
      SpelledNulFree(words[..|words| - 1]);
    }
  }

  /** snprintf: at most `size` bytes including the terminator, cutting what does not fit. */
  function Snprintf(size: nat, text: seq<byte>): seq<byte> {
    if size == 0 then [] else (if |text| < size then text else text[..size - 1]) + [NUL]
  }

  const INT_MAX: nat := 0x7FFF_FFFF

  /**
   What `snprintf` leaves in a buffer. It fails when the size or the length of the text exceeds what
   an `int` counts, and then promises nothing: the buffer holds whatever `leftover` is.
   */
  function Formatted(size: nat, text: seq<byte>, leftover: seq<byte>): seq<byte> {
    if size > INT_MAX || |text| > INT_MAX then leftover else Snprintf(size, text)
  }

  /** The size the command string is allocated with: a `size_t` sum, which wraps around. */
  function CommandSize(program: Program, argument: seq<byte>): (size: nat)
    ensures size <= SIZE_MAX
  {
    (|Spelled(program)| + 1 + |Quoted(argument)| + (|SUFFIX| + 1)) % (SIZE_MAX + 1)
  }

  lemma CommandNulFree(program: Program, argument: seq<byte>)
    requires NulFree(argument)
    ensures NulFree(Command(program, argument))
  {
    SpelledNulFree(program);
    QuotedBodyNulFree(argument);
    hide Spelled, QuotedBody;
  }

  /** The formatted string is the command if and only if the size did not wrap around. */
  lemma CutIffWrapped(program: Program, argument: seq<byte>)
    requires NulFree(argument)
    ensures CString(Snprintf(CommandSize(program, argument), Command(program, argument))) == Command(program, argument)
       <==> |Spelled(program)| + |Quoted(argument)| + |SUFFIX| + 2 <= SIZE_MAX
  {
    var line := Command(program, argument);
    CommandNulFree(program, argument);
    assert |line| == |Spelled(program)| + 1 + |Quoted(argument)| + |SUFFIX|;
    hide Command, Spelled, Quoted;
    FormattedWhole(CommandSize(program, argument), line);
  }

  lemma FormattedWhole(size: nat, line: seq<byte>)
    requires NulFree(line) && line != []
    ensures CString(Snprintf(size, line)) == line <==> |line| < size
  {
    if size == 0 {
      assert CString([]) == [];
    } else {
      var text := if |line| < size then line else line[..size - 1];
      CStringOf(text, []);
      assert text + [NUL] + [] == Snprintf(size, line);
    }
  }

  /** The string is sure to be the command if and only if an `int` counts its size. */
  lemma WholeIffCounted(program: Program, argument: seq<byte>)
    requires NulFree(argument)
    ensures (forall leftover ::
               CString(Formatted(CommandSize(program, argument), Command(program, argument), leftover))
               == Command(program, argument))
       <==> |Spelled(program)| + |Quoted(argument)| + |SUFFIX| + 2 <= INT_MAX
  {
    var size, line := CommandSize(program, argument), Command(program, argument);
    assert |line| == |Spelled(program)| + 1 + |Quoted(argument)| + |SUFFIX|;
    CommandNulFree(program, argument);
    hide Command, Spelled, Quoted, Snprintf;
    if |line| + 1 <= INT_MAX {
      FormattedWhole(size, line);
    } else {
      assert CString([]) == [];
      assert Formatted(size, line, []) == [];
    }
  }

  /** Half a gigabyte of quotes, which the length check admits, is already too much. */
  lemma QuotesUncounted(program: Program)
    ensures var argument := Quotes(INT_MAX / 4);
            && argument != [] && NulFree(argument) && |argument| <= (SIZE_MAX - 3) / 4
            && CString(Formatted(CommandSize(program, argument), Command(program, argument), []))
               != Command(program, argument)
  {
    var argument := Quotes(INT_MAX / 4);
    QuotesQuadruple(argument);
    var size, line := CommandSize(program, argument), Command(program, argument);
    assert |line| == |Spelled(program)| + 1 + |Quoted(argument)| + |SUFFIX| > INT_MAX;
    hide Spelled, QuotedBody, Command, CommandSize;
    assert Formatted(size, line, []) == [] && CString([]) == [];
  }

  function Quotes(n: nat): (q: seq<byte>)
    ensures |q| == n && forall i :: 0 <= i < n ==> q[i] == QUOTE
  {
    seq(n, _ => QUOTE)
  }

  lemma {:induction false} QuotesQuadruple(argument: seq<byte>)
    requires forall i :: 0 <= i < |argument| ==> argument[i] == QUOTE
    ensures |QuotedBody(argument)| == 4 * |argument|
    decreases |argument|
  {
    if argument != [] {
      QuotesQuadruple(argument[..|argument| - 1]);
    }
  }

  /** The longest argument the length check admits, if all quotes, makes the size wrap around. */
  lemma LongQuotesWrap(program: Program)
    ensures var argument := Quotes((SIZE_MAX - 3) / 4);
            && argument != [] && NulFree(argument) && |argument| <= (SIZE_MAX - 3) / 4
            && CString(Snprintf(CommandSize(program, argument), Command(program, argument)))
               != Command(program, argument)
  {
    var argument := Quotes((SIZE_MAX - 3) / 4);
    QuotesQuadruple(argument);
    CutIffWrapped(program, argument);
    hide Spelled, QuotedBody, CString, Command, Snprintf, CommandSize;
  }

  /** No argument of a request is. */
  lemma RequestsAreCounted(program: Program, argument: seq<byte>)
    requires (program == LS || program == CAT) && |argument| <= 0xFFFF
    ensures |Spelled(program)| + |Quoted(argument)| + |SUFFIX| + 2 <= INT_MAX
  {
    hide QuotedBody;
    assert LS[..2][..1] == LS[..1] && |Spelled(LS[..1])| == 2;
    assert |Spelled(LS[..2])| == 5 && |Spelled(LS)| == 8;
    assert |Spelled(CAT[..1])| == 3 && |Spelled(CAT)| == 6;
  }

  lemma TerminatedQuoted(bytes: seq<byte>, end: nat, argument: seq<byte>)
    requires NulFree(argument)
    requires end < |bytes| && bytes[..end] == [QUOTE] + QuotedBody(argument) + [QUOTE] && bytes[end] == NUL
    ensures CString(bytes) == Quoted(argument)
  {
    hide CString;
    hide QuotedBody;
    var text := Quoted(argument);
    QuotedBodyNulFree(argument);
    assert NulFree(text);
    hide NulFree;
    assert bytes == text + [NUL] + bytes[end + 1..];
    CStringOf(text, bytes[end + 1..]);
  }

  /** One turn of the quoting loop. */
  method QuoteByte(out: array<byte>, index: nat, b: byte) returns (next: nat)
    requires index + |QuotedByte(b)| <= out.Length
    modifies out
    ensures next == index + |QuotedByte(b)|
    ensures out[..next] == old(out[..index]) + QuotedByte(b)
  {
    next := index;
    if b == QUOTE {
      out[next] := QUOTE;
      next := next + 1;
      out[next] := BACKSLASH;
      next := next + 1;
      out[next] := QUOTE;
      next := next + 1;
      out[next] := QUOTE;
      next := next + 1;
    } else {
      out[next] := b;
      next := next + 1;
    }
    assert out[..index] == old(out[..index]);
    assert out[index..next] == QuotedByte(b);
    assert out[..next] == out[..index] + out[index..next];
  }

  /** The quoting loop, writing into one allocation of four bytes per input byte plus three. */
  method QuoteArgument(argument: seq<byte>, memory: bool) returns (quoted: Option<array<byte>>)
    requires |argument| <= SIZE_MAX
    ensures quoted.Some? <==> argument != [] && NulFree(argument) && |argument| <= (SIZE_MAX - 3) / 4 && memory
    ensures quoted.Some? ==> fresh(quoted.value) && quoted.value.Length == 4 * |argument| + 3
    ensures quoted.Some? ==> CString(quoted.value[..]) == Quoted(argument)
  {
    if argument == [] || !NulFree(argument) {
      return None;
    }
    if |argument| > (SIZE_MAX - 3) / 4 {
      return None;
    }
    if !memory {
      return None;
    }
    hide *;
    var out := new byte[4 * |argument| + 3];
    var o := QuoteBytes(out, argument);
    ghost var before := out[..o];
    out[o] := QUOTE;
    o := o + 1;
    out[o] := NUL;
    assert out[..o] == before + [QUOTE];
    assert out[..][..o] == out[..o];
    TerminatedQuoted(out[..], o, argument);
    return Some(out);
  }

  /** The opening quote and the loop over the argument. */
  method QuoteBytes(out: array<byte>, argument: seq<byte>) returns (o: nat)
    requires out.Length == 4 * |argument| + 3
    modifies out
    ensures o == 1 + |QuotedBody(argument)| && out[..o] == [QUOTE] + QuotedBody(argument)
  {
    assert QuotedBody(argument[..0]) == [];
    hide *;
    o := 0;
    out[o] := QUOTE;
    o := o + 1;
    ghost var body: seq<byte> := [];
    for i := 0 to |argument|
      invariant body == QuotedBody(argument[..i]) && o == 1 + |body| && out[..o] == [QUOTE] + body
    {
      QuotedBodySnoc(argument, i);
      ghost var q := QuotedByte(argument[i]);
      o := QuoteByte(out, o, argument[i]);
      assert [QUOTE] + body + q == [QUOTE] + (body + q);
      body := body + q;
    }
    assert argument[..|argument|] == argument;
  }

  /**
   The command string: it is sure to be `Command`, uncut, if an `int` counts its size, which the
   source does not check; `leftover` is what a failing `snprintf` leaves in it.
   */
  method BuildCommand(program: Program, argument: seq<byte>, memory: (bool, bool), leftover: seq<byte>)
    returns (command: Option<seq<byte>>)
    requires |argument| <= SIZE_MAX
    ensures command.Some? <==> argument != [] && NulFree(argument) && |argument| <= (SIZE_MAX - 3) / 4
                               && memory == (true, true)
    ensures command.Some? ==>
              command.value == Formatted(CommandSize(program, argument), Command(program, argument), leftover)
    ensures command.Some? && |Spelled(program)| + |Quoted(argument)| + |SUFFIX| + 2 <= INT_MAX ==>
              CString(command.value) == Command(program, argument)
  {
    var quoted := QuoteArgument(argument, memory.0);
    if quoted.None? {
      return None;
    }
    var text := CString(quoted.value[..]);
    var commandLength := (|Spelled(program)| + 1 + |text| + (|SUFFIX| + 1)) % (SIZE_MAX + 1);
    if !memory.1 {
      return None;
    }
    var buffer := Formatted(commandLength, Spelled(program) + [SPACE] + text + SUFFIX, leftover);
    hide CString, Snprintf, Spelled, QuotedBody;
    WholeIffCounted(program, argument);
    return Some(buffer);
  }
}
