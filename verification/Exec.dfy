/**
 The Exec key of a desktop entry: string escapes, then words with quoting, then field codes.

 The reader with its four flags is proved to follow a machine of four modes, and that machine to
 accept exactly the texts that are laid out as words between gaps.
 */
module Exec {
  import opened Prelude

  const MAX_EXEC_ARGUMENTS: nat := 128

  datatype Word = Word(text: string, quoted: bool)

  // ----- string escapes -----

  function Escaped(c: char): Option<char> {
    match c
    case 's' => Some(' ')
    case 'n' => Some('\n')
    case 't' => Some('\t')
    case 'r' => Some('\r')
    case '\\' => Some('\\')
    case _ => None
  }

  function Cons<T>(head: T, tail: Option<seq<T>>): Option<seq<T>> {
    if tail.Some? then Some([head] + tail.value) else None
  }

  function DecodeString(s: string): Option<string> {
    if s == [] then Some([])
    else if s[0] != '\\' then Cons(s[0], DecodeString(s[1..]))
    else if |s| == 1 || Escaped(s[1]).None? then None
    else Cons(Escaped(s[1]).value, DecodeString(s[2..]))
  }

  function EscapeChar(c: char): string {
    if c == '\\' then "\\\\" else if c == '\n' then "\\n" else if c == '\t' then "\\t"
    else if c == '\r' then "\\r" else [c]
  }

  /** How a desktop entry spells a string value. */
  function EncodeString(s: string): string {
    if s == [] then [] else EscapeChar(s[0]) + EncodeString(s[1..])
  }

  lemma {:induction false} StringRoundTrip(s: string)
    ensures DecodeString(EncodeString(s)) == Some(s)
  {
    if s != [] {
      StringRoundTrip(s[1..]);
      var e := EscapeChar(s[0]);
      assert EncodeString(s)[|e|..] == EncodeString(s[1..]);
      assert [s[0]] + s[1..] == s;
    }
  }

  // ----- words -----

  predicate IsSpace(c: char) {
    c == ' ' || c == '\t' || c == '\n' || c == '\r' || c == '\U{0C}'
  }

  predicate IsReserved(c: char) {
    c in "'><~|&;$*?#()`"
  }

  predicate Escapable(c: char) {
    c == '"' || c == '`' || c == '$' || c == '\\'
  }

  /** A character that stands for itself outside quotes. */
  predicate IsBare(c: char) {
    !IsSpace(c) && !IsReserved(c) && c != '"' && c != '\\'
  }

  datatype Mode = Between | Bare(text: string) | Inside(text: string) | Closed(text: string)

  function Words(mode: Mode, s: string): Option<seq<Word>>
    decreases |s|
  {
    if s == [] then AtEnd(mode)
    else
      var c, rest := s[0], s[1..];
      match mode
      case Between =>
        if c == '"' then Words(Inside(""), rest)
        else if IsSpace(c) then Words(Between, rest)
        else if IsBare(c) then Words(Bare([c]), rest) else None
      case Bare(text) =>
        if IsSpace(c) then Cons(Word(text, false), Words(Between, rest))
        else if IsBare(c) then Words(Bare(text + [c]), rest) else None
      case Inside(text) =>
        if c == '"' then Words(Closed(text), rest)
        else if c == '\\' then
          if rest == [] || !Escapable(rest[0]) then None else Words(Inside(text + [rest[0]]), rest[1..])
        else Words(Inside(text + [c]), rest)
      case Closed(text) =>
        if IsSpace(c) then Cons(Word(text, true), Words(Between, rest)) else None
  }

  function AtEnd(mode: Mode): Option<seq<Word>> {
    match mode
    case Between => Some([])
    case Bare(text) => Some([Word(text, false)])
    case Inside(_) => None
    case Closed(text) => Some([Word(text, true)])
  }

  function ExecWords(s: string): Option<seq<Word>> {
    if Words(Between, s) == Some([]) then None else Words(Between, s)
  }

  // ----- the layouts that mean words -----

  /** One word as it is spelled, with the gap before it; a quoted spelling is what lies between the quotes. */
  datatype Token = Token(gap: string, quoted: bool, spelling: string)

  function Unquote(spelling: string): Option<string> {
    if spelling == [] then Some([])
    else if spelling[0] == '"' then None
    else if spelling[0] != '\\' then Cons(spelling[0], Unquote(spelling[1..]))
    else if |spelling| == 1 || !Escapable(spelling[1]) then None
    else Cons(spelling[1], Unquote(spelling[2..]))
  }

  predicate IsGap(s: string) {
    forall i :: 0 <= i < |s| ==> IsSpace(s[i])
  }

  predicate AllBare(s: string) {
    forall i :: 0 <= i < |s| ==> IsBare(s[i])
  }

  predicate TokenOk(t: Token) {
    IsGap(t.gap) && if t.quoted then Unquote(t.spelling).Some? else t.spelling != [] && AllBare(t.spelling)
  }

  /** Every word but the first needs a gap before it. */
  predicate TokensOk(tokens: seq<Token>) {
    && (forall i :: 0 <= i < |tokens| ==> TokenOk(tokens[i]))
    && (forall i :: 1 <= i < |tokens| ==> tokens[i].gap != [])
  }

  function Spelled(t: Token): string {
    if t.quoted then "\"" + t.spelling + "\"" else t.spelling
  }

  function Layout(tokens: seq<Token>, tail: string): string {
    if tokens == [] then tail else tokens[0].gap + (Spelled(tokens[0]) + Layout(tokens[1..], tail))
  }

  function WordOf(t: Token): Word
    requires TokenOk(t)
  {
    Word(if t.quoted then Unquote(t.spelling).value else t.spelling, t.quoted)
  }

  function WordsOf(tokens: seq<Token>): (words: seq<Word>)
    requires forall i :: 0 <= i < |tokens| ==> TokenOk(tokens[i])
    ensures |words| == |tokens| && forall i :: 0 <= i < |tokens| ==> words[i] == WordOf(tokens[i])
  {
    seq(|tokens|, i requires 0 <= i < |tokens| => WordOf(tokens[i]))
  }

  lemma {:induction false} SkipGap(gap: string, rest: string)
    requires IsGap(gap)
    ensures Words(Between, gap + rest) == Words(Between, rest)
  {
    if gap == [] {
      assert gap + rest == rest;
    } else {
      assert (gap + rest)[1..] == gap[1..] + rest;
      SkipGap(gap[1..], rest);
    }
  }

  lemma {:induction false} ReadBare(text: string, more: string, rest: string)
    requires AllBare(more)
    ensures Words(Bare(text), more + rest) == Words(Bare(text + more), rest)
    decreases |more|
  {
    if more == [] {
      assert more + rest == rest && text + more == text;
    } else {
      assert (more + rest)[1..] == more[1..] + rest;
      ReadBare(text + [more[0]], more[1..], rest);
      assert text + [more[0]] + more[1..] == text + more;
    }
  }

  lemma {:induction false} ReadQuoted(text: string, spelling: string, rest: string)
    requires Unquote(spelling).Some?
    ensures Words(Inside(text), spelling + ("\"" + rest)) == Words(Closed(text + Unquote(spelling).value), rest)
    decreases |spelling|
  {
    var all := spelling + ("\"" + rest);
    if spelling == [] {
      assert all[0] == '"' && all[1..] == rest && text + [] == text;
    } else {
      var n := if spelling[0] == '\\' then 2 else 1;
      var c := spelling[n - 1];
      assert all[n..] == spelling[n..] + ("\"" + rest);
      ReadQuoted(text + [c], spelling[n..], rest);
      assert text + [c] + Unquote(spelling[n..]).value == text + Unquote(spelling).value;
      if n == 2 {
        assert all[1..][1..] == all[2..];
      }
    }
  }

  /** What follows a word: the end, or a gap. */
  lemma EndWord(mode: Mode, rest: string)
    requires (mode.Bare? || mode.Closed?) && (rest == [] || IsSpace(rest[0]))
    ensures Words(mode, rest) == Cons(Word(mode.text, mode.Closed?), Words(Between, rest))
  {
    var word := Word(mode.text, mode.Closed?);
    assert [word] + [] == [word];
  }

  lemma ReadQuotedToken(spelling: string, rest: string)
    requires Unquote(spelling).Some? && (rest == [] || IsSpace(rest[0]))
    ensures Words(Between, "\"" + spelling + "\"" + rest)
            == Cons(Word(Unquote(spelling).value, true), Words(Between, rest))
  {
    var all, inner := "\"" + spelling + "\"" + rest, spelling + ("\"" + rest);
    assert all[0] == '"' && all[1..] == inner;
    ReadQuoted("", spelling, rest);
    var text := Unquote(spelling).value;
    assert "" + text == text;
    EndWord(Closed(text), rest);
  }

  lemma ReadBareToken(spelling: string, rest: string)
    requires spelling != [] && AllBare(spelling) && (rest == [] || IsSpace(rest[0]))
    ensures Words(Between, spelling + rest) == Cons(Word(spelling, false), Words(Between, rest))
  {
    assert (spelling + rest)[1..] == spelling[1..] + rest;
    ReadBare([spelling[0]], spelling[1..], rest);
    assert [spelling[0]] + spelling[1..] == spelling;
    EndWord(Bare(spelling), rest);
  }

  lemma ReadToken(t: Token, rest: string)
    requires TokenOk(t) && (rest == [] || IsSpace(rest[0]))
    ensures Words(Between, t.gap + (Spelled(t) + rest)) == Cons(WordOf(t), Words(Between, rest))
  {
    SkipGap(t.gap, Spelled(t) + rest);
    if t.quoted {
      ReadQuotedToken(t.spelling, rest);
    } else {
      ReadBareToken(t.spelling, rest);
    }
  }

  lemma {:induction false} GapOnly(tail: string)
    requires IsGap(tail)
    ensures Words(Between, tail) == Some([])
  {
    if tail != [] {
      GapOnly(tail[1..]);
    }
  }

  lemma {:induction false} LayoutReads(tokens: seq<Token>, tail: string)
    requires TokensOk(tokens) && IsGap(tail)
    ensures Words(Between, Layout(tokens, tail)) == Some(WordsOf(tokens))
  {
    if tokens == [] {
      GapOnly(tail);
    } else {
      LayoutReads(tokens[1..], tail);
      assert tokens == [tokens[0]] + tokens[1..];
      ReadNext(tokens[0], tokens[1..], tail);
    }
  }

  lemma ReadNext(t: Token, tokens: seq<Token>, tail: string)
    requires TokenOk(t) && TokensOk(tokens) && Separated(tokens) && IsGap(tail)
    requires Words(Between, Layout(tokens, tail)) == Some(WordsOf(tokens))
    ensures WordsOf([t] + tokens) == [WordOf(t)] + WordsOf(tokens)
    ensures Words(Between, Layout([t] + tokens, tail)) == Some([WordOf(t)] + WordsOf(tokens))
  {
    Prepend(t, tokens, tail);
    GapAhead(tokens, tail);
    ReadToken(t, Layout(tokens, tail));
  }

  lemma GapAhead(tokens: seq<Token>, tail: string)
    requires TokensOk(tokens) && Separated(tokens) && IsGap(tail)
    ensures Layout(tokens, tail) != [] ==> IsSpace(Layout(tokens, tail)[0])
  {
    if tokens != [] {
      assert TokenOk(tokens[0]) && Layout(tokens, tail)[0] == tokens[0].gap[0];
    }
  }

  // ----- nothing else is accepted -----

  /** A word that has ended is followed by the end or by a gap. */
  predicate Separated(tokens: seq<Token>) {
    tokens != [] ==> tokens[0].gap != []
  }

  /** How `s`, read from `mode`, is laid out: the rest of the current word, then further words. */
  ghost predicate Explains(mode: Mode, s: string, words: seq<Word>, head: string, tokens: seq<Token>, tail: string) {
    && IsGap(tail) && TokensOk(tokens) && (!mode.Between? ==> Separated(tokens))
    && var rest, more := Layout(tokens, tail), WordsOf(tokens);
    match mode
    case Between => s == rest && words == more
    case Bare(text) => AllBare(head) && s == head + rest && words == [Word(text + head, false)] + more
    case Inside(text) =>
      && Unquote(head).Some? && s == head + ("\"" + rest)
      && words == [Word(text + Unquote(head).value, true)] + more
    case Closed(text) => s == rest && words == [Word(text, true)] + more
  }

  /** A finished word before a layout that a gap separates. */
  lemma Prepend(t: Token, tokens: seq<Token>, tail: string)
    requires TokenOk(t) && TokensOk(tokens) && Separated(tokens)
    ensures TokensOk([t] + tokens) && WordsOf([t] + tokens) == [WordOf(t)] + WordsOf(tokens)
    ensures Layout([t] + tokens, tail) == t.gap + (Spelled(t) + Layout(tokens, tail))
  {
    PrependOk(t, tokens);
    PrependLayout(t, tokens, tail);
  }

  lemma PrependOk(t: Token, tokens: seq<Token>)
    requires TokenOk(t) && TokensOk(tokens) && Separated(tokens)
    ensures TokensOk([t] + tokens) && WordsOf([t] + tokens) == [WordOf(t)] + WordsOf(tokens)
  {
    var all := [t] + tokens;
    forall i | 0 <= i < |all| ensures TokenOk(all[i]) && (i > 0 ==> all[i].gap != []) {
      assert i > 0 ==> all[i] == tokens[i - 1] && TokenOk(tokens[i - 1]);
    }
  }

  lemma PrependLayout(t: Token, tokens: seq<Token>, tail: string)
    ensures Layout([t] + tokens, tail) == t.gap + (Spelled(t) + Layout(tokens, tail))
  {
    assert ([t] + tokens)[1..] == tokens;
  }

  /** A space before a layout widens its first gap. */
  lemma Widen(c: char, tokens: seq<Token>, tail: string) returns (tokens': seq<Token>, tail': string)
    requires IsSpace(c) && TokensOk(tokens) && IsGap(tail)
    ensures TokensOk(tokens') && IsGap(tail') && Separated(tokens')
    ensures Layout(tokens', tail') == [c] + Layout(tokens, tail) && WordsOf(tokens') == WordsOf(tokens)
  {
    if tokens == [] {
      tokens', tail' := [], [c] + tail;
    } else {
      var t, rest := tokens[0].(gap := [c] + tokens[0].gap), tokens[1..];
      tokens', tail' := [t] + rest, tail;
      assert TokenOk(tokens[0]) && tokens == [tokens[0]] + rest;
      Prepend(t, rest, tail);
      Prepend(tokens[0], rest, tail);
      Regroup([c], tokens[0].gap, Spelled(t) + Layout(rest, tail));
    }
  }

  lemma {:induction false} Accepted(mode: Mode, s: string) returns (head: string, tokens: seq<Token>, tail: string)
    requires Words(mode, s).Some?
    ensures Explains(mode, s, Words(mode, s).value, head, tokens, tail)
    decreases |s|
  {
    head, tokens, tail := [], [], [];
    if s != [] {
      match mode {
        case Between => tokens, tail := AcceptedBetween(s);
        case Bare(text) => head, tokens, tail := AcceptedBare(text, s);
        case Inside(text) => head, tokens, tail := AcceptedInside(text, s);
        case Closed(text) =>
          head, tokens, tail := Accepted(Between, s[1..]);
          tokens, tail := Widen(s[0], tokens, tail);
      }
    } else if mode.Bare? {
      assert mode.text + head == mode.text;
    }
  }

  lemma {:induction false} AcceptedBetween(s: string) returns (tokens: seq<Token>, tail: string)
    requires s != [] && Words(Between, s).Some?
    ensures Explains(Between, s, Words(Between, s).value, [], tokens, tail)
    decreases |s|, 1
  {
    if IsSpace(s[0]) {
      var head;
      head, tokens, tail := Accepted(Between, s[1..]);
      tokens, tail := Widen(s[0], tokens, tail);
    } else if s[0] == '"' {
      tokens, tail := AcceptedOpening(s);
    } else {
      tokens, tail := AcceptedFirst(s);
    }
  }

  lemma {:induction false} AcceptedOpening(s: string) returns (tokens: seq<Token>, tail: string)
    requires s != [] && s[0] == '"' && Words(Between, s).Some?
    ensures Explains(Between, s, Words(Between, s).value, [], tokens, tail)
    decreases |s|, 0
  {
    var head;
    head, tokens, tail := Accepted(Inside(""), s[1..]);
    var t, rest := Token("", true, head), Layout(tokens, tail);
    assert "" + Unquote(head).value == Unquote(head).value;
    assert s == "" + ("\"" + head + "\"" + rest) by { assert s == ['"'] + (head + ("\"" + rest)); }
    Prepend(t, tokens, tail);
    tokens := [t] + tokens;
  }

  lemma {:induction false} AcceptedFirst(s: string) returns (tokens: seq<Token>, tail: string)
    requires s != [] && IsBare(s[0]) && Words(Between, s).Some?
    ensures Explains(Between, s, Words(Between, s).value, [], tokens, tail)
    decreases |s|, 0
  {
    var head;
    head, tokens, tail := Accepted(Bare([s[0]]), s[1..]);
    var t := Token("", false, [s[0]] + head);
    Prepend(t, tokens, tail);
    assert s == t.gap + (Spelled(t) + Layout(tokens, tail));
    tokens := [t] + tokens;
  }

  lemma {:induction false} AcceptedBare(text: string, s: string) returns (head: string, tokens: seq<Token>, tail: string)
    requires s != [] && Words(Bare(text), s).Some?
    ensures Explains(Bare(text), s, Words(Bare(text), s).value, head, tokens, tail)
    decreases |s|, 0
  {
    var c, rest := s[0], s[1..];
    if IsSpace(c) {
      head, tokens, tail := Accepted(Between, rest);
      tokens, tail := Widen(c, tokens, tail);
      head := [];
      assert text + head == text && s == head + Layout(tokens, tail);
    } else {
      head, tokens, tail := Accepted(Bare(text + [c]), rest);
      assert text + [c] + head == text + ([c] + head);
      head := [c] + head;
      assert s == head + Layout(tokens, tail);
    }
  }

  lemma {:induction false} AcceptedInside(text: string, s: string) returns (head: string, tokens: seq<Token>, tail: string)
    requires s != [] && Words(Inside(text), s).Some?
    ensures Explains(Inside(text), s, Words(Inside(text), s).value, head, tokens, tail)
    decreases |s|, 0
  {
    if s[0] == '"' {
      head, tokens, tail := Accepted(Closed(text), s[1..]);
      head := [];
      assert text + [] == text && s == head + ("\"" + Layout(tokens, tail));
    } else {
      var n := if s[0] == '\\' then 2 else 1;
      assert n == 2 ==> s[1..][1..] == s[2..];
      var inner;
      inner, tokens, tail := Accepted(Inside(text + [s[n - 1]]), s[n..]);
      head := s[..n] + inner;
      Resume(text, s, Words(Inside(text), s).value, n, inner, tokens, tail);
    }
  }

  lemma Resume(
    text: string, s: string, words: seq<Word>, n: nat, inner: string, tokens: seq<Token>, tail: string)
    requires s != [] && s[0] != '"' && 1 <= n <= |s|
    requires if s[0] == '\\' then n == 2 && Escapable(s[1]) else n == 1
    requires Explains(Inside(text + [s[n - 1]]), s[n..], words, inner, tokens, tail)
    ensures Explains(Inside(text), s, words, s[..n] + inner, tokens, tail)
  {
    UnquoteLonger(s, n, inner);
    Regroup(text, [s[n - 1]], Unquote(inner).value);
    Regroup(s[..n], inner, "\"" + Layout(tokens, tail));
    assert s == s[..n] + s[n..];
  }

  lemma Regroup(a: string, b: string, c: string)
    ensures a + b + c == a + (b + c)
  {
  }

  lemma UnquoteLonger(s: string, n: nat, inner: string)
    requires Unquote(inner).Some? && |s| >= n && s != [] && s[0] != '"'
    requires if s[0] == '\\' then n == 2 && |s| > 1 && Escapable(s[1]) else n == 1
    ensures Unquote(s[..n] + inner) == Some([s[n - 1]] + Unquote(inner).value)
  {
    assert (s[..n] + inner)[n..] == inner;
  }

  /** The words of a text are accepted exactly when it is a layout of at least one word, and they are its words. */
  lemma WordsAreLayouts(s: string, words: seq<Word>)
    ensures ExecWords(s) == Some(words) <==> words != [] && exists tokens, tail :: Lays(s, words, tokens, tail)
  {
    if ExecWords(s) == Some(words) {
      var head, tokens, tail := Accepted(Between, s);
      assert Lays(s, words, tokens, tail);
    }
    if words != [] && exists tokens, tail :: Lays(s, words, tokens, tail) {
      var tokens, tail :| Lays(s, words, tokens, tail);
      LayoutReads(tokens, tail);
    }
  }

  ghost predicate Lays(s: string, words: seq<Word>, tokens: seq<Token>, tail: string) {
    TokensOk(tokens) && IsGap(tail) && s == Layout(tokens, tail) && words == WordsOf(tokens)
  }

  /** No unquoted word holds a reserved character, a quote, a backslash or a space. */
  lemma BareWordsAreBare(s: string, words: seq<Word>, i: nat)
    requires ExecWords(s) == Some(words) && i < |words| && !words[i].quoted
    ensures words[i].text != [] && AllBare(words[i].text)
  {
    WordsAreLayouts(s, words);
    var tokens, tail :| Lays(s, words, tokens, tail);
    assert words[i] == WordOf(tokens[i]) && TokenOk(tokens[i]);
  }

  // ----- field codes -----

  /** What the entry supplies for the codes; `path` is None when it is not UTF-8. */
  datatype Entry = Entry(name: string, path: Option<string>, icon: Option<string>)

  function Literal(s: string): Option<string> {
    if s == [] then Some([])
    else if s[0] != '%' then Cons(s[0], Literal(s[1..]))
    else if |s| == 1 || s[1] != '%' then None
    else Cons('%', Literal(s[2..]))
  }

  predicate IsDropped(s: string) {
    s in {"%f", "%F", "%u", "%U", "%d", "%D", "%n", "%N", "%v", "%m"}
  }

  function Icon(icon: Option<string>): Option<seq<string>> {
    if icon.None? then Some([])
    else if DecodeString(icon.value).None? then None
    else if DecodeString(icon.value).value == [] then Some([])
    else Some(["--icon", DecodeString(icon.value).value])
  }

  /** The arguments one word becomes. */
  function Expand(w: Word, e: Entry): Option<seq<string>> {
    if w.quoted && '%' in w.text then None
    else if IsDropped(w.text) then Some([])
    else if w.text == "%i" then Icon(e.icon)
    else if w.text == "%c" then Some([e.name])
    else if w.text == "%k" then (if e.path.None? then None else Some([e.path.value]))
    else match Literal(w.text) case None => None case Some(text) => Some([text])
  }

  function ExpandAll(words: seq<Word>, n: nat, e: Entry): Option<seq<string>>
    requires n <= |words|
  {
    if n == 0 then Some([])
    else match ExpandAll(words, n - 1, e)
      case None => None
      case Some(done) =>
        match Expand(words[n - 1], e)
        case None => None
        case Some(more) => if |done + more| > MAX_EXEC_ARGUMENTS then None else Some(done + more)
  }

  function Doubled(s: string): string {
    if s == [] then [] else (if s[0] == '%' then "%%" else [s[0]]) + Doubled(s[1..])
  }

  lemma {:induction false} LiteralRoundTrip(s: string)
    ensures Literal(Doubled(s)) == Some(s)
  {
    if s != [] {
      LiteralRoundTrip(s[1..]);
      var n := if s[0] == '%' then 2 else 1;
      assert Doubled(s)[n..] == Doubled(s[1..]);
      assert [s[0]] + s[1..] == s;
    }
  }

  lemma {:induction false} NothingToDouble(s: string)
    requires '%' !in s
    ensures Doubled(s) == s
  {
    if s != [] {
      NothingToDouble(s[1..]);
    }
  }

  /** A doubled text is never a field code, and means itself. */
  lemma ExpandDoubled(s: string, quoted: bool, e: Entry)
    requires quoted ==> '%' !in s
    ensures Expand(Word(Doubled(s), quoted), e) == Some([s])
  {
    LiteralRoundTrip(s);
    if '%' !in s {
      NothingToDouble(s);
    }
    var d := Doubled(s);
    if s != [] && |d| >= 2 && d[0] == '%' {
      assert d[1] == '%';
    }
    assert !(|d| == 2 && d[0] == '%' && d[1] != '%');
  }

  // ----- the whole command -----

  predicate IsAscii(s: string) {
    forall i :: 0 <= i < |s| ==> s[i] < '\U{80}'
  }

  /** `resolve` stands for the search of the program. */
  function ParseExec<P>(value: string, e: Entry, resolve: string -> Option<P>): Option<(P, seq<string>)> {
    if value == [] || !IsAscii(value) || DecodeString(value).None? || ExecWords(DecodeString(value).value).None? then None
    else
      var words := ExecWords(DecodeString(value).value).value;
      match ExpandAll(words, |words|, e)
      case None => None
      case Some(expanded) =>
        if expanded == [] || expanded[0] == [] || '=' in expanded[0] || resolve(expanded[0]).None? then None
        else Some((resolve(expanded[0]).value, expanded[1..]))
  }

  function QuoteText(s: string): string {
    if s == [] then [] else (if Escapable(s[0]) then ['\\', s[0]] else [s[0]]) + QuoteText(s[1..])
  }

  lemma {:induction false} UnquoteQuoted(s: string)
    ensures Unquote(QuoteText(s)) == Some(s)
  {
    if s != [] {
      UnquoteQuoted(s[1..]);
      var n := if Escapable(s[0]) then 2 else 1;
      assert QuoteText(s)[n..] == QuoteText(s[1..]);
      assert [s[0]] + s[1..] == s;
    }
  }

  /** An argument as a command line spells it: quoted, or bare with its percent signs doubled. */
  function Spell(arg: string, quoted: bool, first: bool): Token {
    Token(if first then "" else " ", quoted, if quoted then QuoteText(arg) else Doubled(arg))
  }

  predicate CanSpell(arg: string, quoted: bool) {
    if quoted then '%' !in arg else arg != [] && AllBare(arg)
  }

  lemma {:induction false} DoubledStaysBare(s: string)
    requires AllBare(s)
    ensures AllBare(Doubled(s)) && (s != [] ==> Doubled(s) != [])
  {
    if s != [] {
      DoubledStaysBare(s[1..]);
    }
  }

  lemma SpellMeans(arg: string, quoted: bool, first: bool)
    requires CanSpell(arg, quoted)
    ensures TokenOk(Spell(arg, quoted, first)) && WordOf(Spell(arg, quoted, first)) == Word(Doubled(arg), quoted)
  {
    if quoted {
      UnquoteQuoted(arg);
      NothingToDouble(arg);
    } else {
      DoubledStaysBare(arg);
    }
  }

  function Tokens(args: seq<string>, quoted: seq<bool>): (tokens: seq<Token>)
    requires |args| == |quoted|
    ensures |tokens| == |args|
    ensures forall i :: 0 <= i < |args| ==> tokens[i] == Spell(args[i], quoted[i], i == 0)
  {
    seq(|args|, i requires 0 <= i < |args| => Spell(args[i], quoted[i], i == 0))
  }

  /** The Exec value for a list of arguments, each quoted or not as chosen. */
  function Command(args: seq<string>, quoted: seq<bool>): string
    requires |args| == |quoted|
  {
    EncodeString(Layout(Tokens(args, quoted), ""))
  }

  lemma CommandWords(args: seq<string>, quoted: seq<bool>) returns (words: seq<Word>)
    requires args != [] && |args| == |quoted| && forall i :: 0 <= i < |args| ==> CanSpell(args[i], quoted[i])
    ensures DecodeString(Command(args, quoted)).Some?
    ensures ExecWords(DecodeString(Command(args, quoted)).value) == Some(words) && |words| == |args|
    ensures forall i :: 0 <= i < |args| ==> words[i] == Word(Doubled(args[i]), quoted[i])
  {
    var tokens := Tokens(args, quoted);
    forall i | 0 <= i < |args|
      ensures TokenOk(tokens[i]) && WordOf(tokens[i]) == Word(Doubled(args[i]), quoted[i])
    {
      SpellMeans(args[i], quoted[i], i == 0);
    }
    words := WordsOf(tokens);
    StringRoundTrip(Layout(tokens, ""));
    LayoutReads(tokens, "");
  }

  lemma {:induction false} ExpandLiterals(words: seq<Word>, args: seq<string>, n: nat, e: Entry)
    requires |words| == |args| && n <= |args|
    requires forall i :: 0 <= i < |args| ==> Expand(words[i], e) == Some([args[i]])
    ensures ExpandAll(words, n, e) == if n <= MAX_EXEC_ARGUMENTS then Some(args[..n]) else None
  {
    if n > 0 {
      ExpandLiterals(words, args, n - 1, e);
      assert args[..n] == args[..n - 1] + [args[n - 1]];
    }
  }

  lemma JoinedAscii(a: string, b: string)
    requires IsAscii(a) && IsAscii(b)
    ensures IsAscii(a + b)
  {
  }

  lemma {:induction false} SpellingAscii(s: string)
    requires IsAscii(s)
    ensures IsAscii(QuoteText(s)) && IsAscii(Doubled(s)) && IsAscii(EncodeString(s))
  {
    if s != [] {
      SpellingAscii(s[1..]);
      JoinedAscii(if Escapable(s[0]) then ['\\', s[0]] else [s[0]], QuoteText(s[1..]));
      JoinedAscii(if s[0] == '%' then "%%" else [s[0]], Doubled(s[1..]));
      JoinedAscii(EscapeChar(s[0]), EncodeString(s[1..]));
    }
  }

  lemma {:induction false} LayoutAscii(tokens: seq<Token>)
    requires forall i :: 0 <= i < |tokens| ==> IsAscii(tokens[i].gap) && IsAscii(tokens[i].spelling)
    ensures IsAscii(Layout(tokens, ""))
  {
    if tokens != [] {
      LayoutAscii(tokens[1..]);
    }
  }

  lemma CommandAscii(args: seq<string>, quoted: seq<bool>)
    requires |args| == |quoted| && forall i :: 0 <= i < |args| ==> IsAscii(args[i])
    ensures IsAscii(Command(args, quoted))
  {
    forall i | 0 <= i < |args| ensures IsAscii(Tokens(args, quoted)[i].spelling) {
      SpellingAscii(args[i]);
    }
    LayoutAscii(Tokens(args, quoted));
    SpellingAscii(Layout(Tokens(args, quoted), ""));
  }

  /** Reading undoes writing, for every list of ASCII arguments and every choice of quoting that can spell them. */
  lemma CommandRoundTrip<P>(args: seq<string>, quoted: seq<bool>, e: Entry, resolve: string -> Option<P>)
    requires args != [] && |args| == |quoted|
    requires forall i :: 0 <= i < |args| ==> CanSpell(args[i], quoted[i]) && IsAscii(args[i])
    ensures ParseExec(Command(args, quoted), e, resolve) ==
              if |args| <= MAX_EXEC_ARGUMENTS && args[0] != [] && '=' !in args[0] && resolve(args[0]).Some?
              then Some((resolve(args[0]).value, args[1..])) else None
  {
    var words := CommandWords(args, quoted);
    CommandAscii(args, quoted);
    forall i | 0 <= i < |args| ensures Expand(words[i], e) == Some([args[i]]) {
      ExpandDoubled(args[i], quoted[i], e);
    }
    ExpandLiterals(words, args, |args|, e);
    assert args[..|args|] == args;
  }

  // ----- which arguments can be written -----

  /** Quotes forbid a percent sign, and outside quotes every character must be bare. */
  predicate Writable(arg: string) {
    IsAscii(arg) && ('%' !in arg || AllBare(arg))
  }

  lemma SomehowSpelled(arg: string)
    requires Writable(arg)
    ensures CanSpell(arg, '%' !in arg)
  {
  }

  /** Every character of one string occurs in another. */
  predicate DrawnFrom(s: string, from: string) {
    forall i :: 0 <= i < |s| ==> s[i] in from
  }

  lemma DrawnNext(c: char, s: string, from: string, n: nat)
    requires n <= |from| && c in from && DrawnFrom(s, from[n..])
    ensures DrawnFrom([c] + s, from)
  {
    forall i | 0 <= i < |[c] + s| ensures ([c] + s)[i] in from {
      if i > 0 {
        assert s[i - 1] in from[n..];
      }
    }
  }

  lemma {:induction false} LiteralDrawn(s: string)
    requires Literal(s).Some?
    ensures DrawnFrom(Literal(s).value, s)
  {
    if s != [] {
      var n := if s[0] == '%' then 2 else 1;
      LiteralDrawn(s[n..]);
      DrawnNext(s[0], Literal(s[n..]).value, s, n);
    }
  }

  lemma {:induction false} UnquoteDrawn(s: string)
    requires Unquote(s).Some?
    ensures DrawnFrom(Unquote(s).value, s)
  {
    if s != [] {
      var n := if s[0] == '\\' then 2 else 1;
      UnquoteDrawn(s[n..]);
      DrawnNext(s[n - 1], Unquote(s[n..]).value, s, n);
    }
  }

  lemma {:induction false} DecodeAscii(s: string)
    requires IsAscii(s) && DecodeString(s).Some?
    ensures IsAscii(DecodeString(s).value)
  {
    if s != [] {
      DecodeAscii(s[if s[0] == '\\' then 2 else 1..]);
    }
  }

  lemma {:induction false} TokenAscii(tokens: seq<Token>, tail: string, i: nat)
    requires IsAscii(Layout(tokens, tail)) && i < |tokens|
    ensures IsAscii(tokens[i].spelling)
  {
    var t, rest := tokens[0], Layout(tokens[1..], tail);
    var front, n := t.gap + (Spelled(t) + rest), |t.gap| + if t.quoted then 1 else 0;
    assert Layout(tokens, tail) == front;
    if i == 0 {
      assert t.spelling == front[n..n + |t.spelling|];
    } else {
      assert rest == front[|t.gap| + |Spelled(t)|..];
      TokenAscii(tokens[1..], tail, i - 1);
    }
  }

  /** What every accepted word is like. */
  predicate WordFine(w: Word) {
    IsAscii(w.text) && (!w.quoted ==> AllBare(w.text))
  }

  lemma WordsFine(s: string, words: seq<Word>)
    requires IsAscii(s) && ExecWords(s) == Some(words)
    ensures forall i :: 0 <= i < |words| ==> WordFine(words[i])
  {
    WordsAreLayouts(s, words);
    var tokens: seq<Token>, tail :| Lays(s, words, tokens, tail);
    forall i | 0 <= i < |words| ensures WordFine(words[i]) {
      assert words[i] == WordOf(tokens[i]) && TokenOk(tokens[i]);
      TokenAscii(tokens, tail, i);
      if tokens[i].quoted {
        UnquoteDrawn(tokens[i].spelling);
      }
    }
  }

  /** An entry whose codes supply nothing of note. */
  const BLANK := Entry("", Some(""), None)

  lemma ExpandedWritable(w: Word)
    requires WordFine(w) && Expand(w, BLANK).Some?
    ensures forall i :: 0 <= i < |Expand(w, BLANK).value| ==> Writable(Expand(w, BLANK).value[i])
  {
    if Literal(w.text).Some? {
      LiteralDrawn(w.text);
    }
  }

  lemma {:induction false} AllWritable(words: seq<Word>, n: nat)
    requires n <= |words| && (forall i :: 0 <= i < |words| ==> WordFine(words[i])) && ExpandAll(words, n, BLANK).Some?
    ensures var args := ExpandAll(words, n, BLANK).value;
            |args| <= MAX_EXEC_ARGUMENTS && forall i :: 0 <= i < |args| ==> Writable(args[i])
  {
    if n > 0 {
      AllWritable(words, n - 1);
      ExpandedWritable(words[n - 1]);
    }
  }

  function Found(program: string): Option<string> {
    Some(program)
  }

  /** The value means this command for every entry, wherever the program is found. */
  ghost predicate Denotes(value: string, args: seq<string>)
    requires args != []
  {
    forall e: Entry :: ParseExec(value, e, Found) == Some((args[0], args[1..]))
  }

  /** The lists of arguments that some Exec value denotes, all of them and no others. */
  lemma DenotedExactly(args: seq<string>)
    requires args != []
    ensures (exists value :: Denotes(value, args)) <==>
              && |args| <= MAX_EXEC_ARGUMENTS && args[0] != [] && '=' !in args[0]
              && forall i :: 0 <= i < |args| ==> Writable(args[i])
  {
    if value :| Denotes(value, args) {
      DenotedIsWritable(value, args);
    }
    if && |args| <= MAX_EXEC_ARGUMENTS && args[0] != [] && '=' !in args[0]
       && forall i :: 0 <= i < |args| ==> Writable(args[i])
    {
      WritableIsDenoted(args);
    }
  }

  lemma DenotedIsWritable(value: string, args: seq<string>)
    requires args != [] && ParseExec(value, BLANK, Found) == Some((args[0], args[1..]))
    ensures |args| <= MAX_EXEC_ARGUMENTS && args[0] != [] && '=' !in args[0]
    ensures forall i :: 0 <= i < |args| ==> Writable(args[i])
  {
    var decoded := DecodeString(value).value;
    var words := ExecWords(decoded).value;
    DecodeAscii(value);
    WordsFine(decoded, words);
    AllWritable(words, |words|);
    var expanded := ExpandAll(words, |words|, BLANK).value;
    assert expanded == [expanded[0]] + expanded[1..] && args == [args[0]] + args[1..];
  }

  lemma WritableIsDenoted(args: seq<string>)
    requires args != [] && |args| <= MAX_EXEC_ARGUMENTS && args[0] != [] && '=' !in args[0]
    requires forall i :: 0 <= i < |args| ==> Writable(args[i])
    ensures exists value :: Denotes(value, args)
  {
    var quoted := seq(|args|, i requires 0 <= i < |args| => '%' !in args[i]);
    forall i | 0 <= i < |args| ensures CanSpell(args[i], quoted[i]) {
      SomehowSpelled(args[i]);
    }
    var value := Command(args, quoted);
    forall e: Entry ensures ParseExec(value, e, Found) == Some((args[0], args[1..])) {
      CommandRoundTrip(args, quoted, e, Found);
    }
    assert Denotes(value, args);
  }

  // ----- the code -----

  function Joined<T>(done: seq<T>, more: Option<seq<T>>): Option<seq<T>> {
    if more.Some? then Some(done + more.value) else None
  }

  lemma JoinedNone<T>(done: seq<T>, more: Option<seq<T>>)
    ensures Joined([], more) == more && Joined(done, Some([])) == Some(done)
  {
    assert done + [] == done;
    if more.Some? {
      assert [] + more.value == more.value;
    }
  }

  lemma JoinedCons<T>(done: seq<T>, x: T, more: Option<seq<T>>)
    ensures Joined(done, Cons(x, more)) == Joined(done + [x], more)
  {
    if more.Some? {
      assert done + ([x] + more.value) == done + [x] + more.value;
    }
  }

  /** `decode_string`. */
  method ReadString(s: string) returns (r: Option<string>)
    ensures r == DecodeString(s)
  {
    var decoded, i := "", 0;
    JoinedNone(decoded, DecodeString(s));
    assert s[0..] == s;
    while i < |s|
      invariant i <= |s| && DecodeString(s) == Joined(decoded, DecodeString(s[i..]))
    {
      if s[i] != '\\' {
        JoinedCons(decoded, s[i], DecodeString(s[i + 1..]));
        decoded, i := decoded + [s[i]], i + 1;
        continue;
      }
      if i + 1 == |s| || Escaped(s[i + 1]).None? {
        return None;
      }
      JoinedCons(decoded, Escaped(s[i + 1]).value, DecodeString(s[i + 2..]));
      decoded, i := decoded + [Escaped(s[i + 1]).value], i + 2;
    }
    JoinedNone(decoded, DecodeString(s));
    r := Some(decoded);
  }

  /** The literal part of `expand_word`. */
  method ReadLiteral(s: string) returns (r: Option<string>)
    ensures r == Literal(s)
  {
    var literal, i := "", 0;
    JoinedNone(literal, Literal(s));
    assert s[0..] == s;
    while i < |s|
      invariant i <= |s| && Literal(s) == Joined(literal, Literal(s[i..]))
    {
      if s[i] != '%' {
        JoinedCons(literal, s[i], Literal(s[i + 1..]));
        literal, i := literal + [s[i]], i + 1;
      } else if i + 1 < |s| && s[i + 1] == '%' {
        JoinedCons(literal, '%', Literal(s[i + 2..]));
        literal, i := literal + "%", i + 2;
      } else {
        return None;
      }
    }
    JoinedNone(literal, Literal(s));
    r := Some(literal);
  }

  /** The mode that the reader's flags stand for. */
  function ModeOf(text: string, quoted: bool, present: bool, closed: bool): Mode {
    if !present then Between else if quoted then Inside(text) else if closed then Closed(text) else Bare(text)
  }

  predicate FlagsOk(text: string, quoted: bool, wordQuoted: bool, present: bool, closed: bool) {
    && (wordQuoted <==> quoted || closed) && !(quoted && closed)
    && (wordQuoted ==> present) && (!present ==> text == [])
  }

  /** `exec_words`. */
  method ReadWords(s: string) returns (r: Option<seq<Word>>)
    ensures r == ExecWords(s)
  {
    var words: seq<Word>, text := [], "";
    var quoted, wordQuoted, present, closed := false, false, false, false;
    var i := 0;
    ghost var all := Words(Between, s);
    JoinedNone(words, all);
    assert s[0..] == s;
    while i < |s|
      invariant i <= |s| && FlagsOk(text, quoted, wordQuoted, present, closed)
      invariant all == Joined(words, Words(ModeOf(text, quoted, present, closed), s[i..]))
    {
      var c := s[i];
      assert s[i..][1..] == s[i + 1..];
      if closed && !IsSpace(c) {
        return None;
      }
      if c == '"' {
        if quoted {
          quoted, closed := false, true;
        } else if present {
          return None;
        } else {
          quoted, wordQuoted, present := true, true, true;
        }
      } else if c == '\\' {
        if !quoted || i + 1 == |s| || !Escapable(s[i + 1]) {
          return None;
        }
        assert s[i..][1..][1..] == s[i + 2..] && s[i..][1] == s[i + 1];
        i := i + 1;
        text, present := text + [s[i]], true;
      } else if IsSpace(c) && !quoted {
        if present {
          JoinedCons(words, Word(text, wordQuoted), Words(Between, s[i + 1..]));
          words := words + [Word(text, wordQuoted)];
          text, wordQuoted, present, closed := "", false, false, false;
        }
      } else if !quoted && IsReserved(c) {
        return None;
      } else {
        assert text == [] ==> text + [c] == [c];
        text, present := text + [c], true;
      }
      i := i + 1;
    }
    JoinedNone(words, all);
    if quoted {
      return None;
    }
    if present {
      words := words + [Word(text, wordQuoted)];
    }
    r := if words == [] then None else Some(words);
  }

  /** `expand_word`, appending to the arguments so far. */
  method ExpandWord(w: Word, e: Entry, output: seq<string>) returns (r: Option<seq<string>>)
    ensures r == Joined(output, Expand(w, e))
  {
    if w.quoted && '%' in w.text {
      return None;
    }
    if IsDropped(w.text) {
      assert output + [] == output;
      return Some(output);
    }
    if w.text == "%i" {
      if e.icon.None? {
        assert output + [] == output;
        return Some(output);
      }
      var icon := ReadString(e.icon.value);
      if icon.None? {
        return None;
      }
      assert output + [] == output;
      return Some(if icon.value == [] then output else output + ["--icon", icon.value]);
    }
    if w.text == "%c" {
      return Some(output + [e.name]);
    }
    if w.text == "%k" {
      return if e.path.None? then None else Some(output + [e.path.value]);
    }
    var literal := ReadLiteral(w.text);
    r := if literal.None? then None else Some(output + [literal.value]);
  }

  lemma {:induction false} ExpandStops(words: seq<Word>, n: nat, m: nat, e: Entry)
    requires n <= m <= |words| && ExpandAll(words, n, e).None?
    ensures ExpandAll(words, m, e).None?
  {
    if n < m {
      ExpandStops(words, n, m - 1, e);
    }
  }

  /** The expansion loop of `parse_exec`. */
  method ExpandWords(words: seq<Word>, e: Entry) returns (r: Option<seq<string>>)
    ensures r == ExpandAll(words, |words|, e)
  {
    var expanded: seq<string> := [];
    for i := 0 to |words|
      invariant ExpandAll(words, i, e) == Some(expanded)
    {
      var next := ExpandWord(words[i], e, expanded);
      if next.None? || |next.value| > MAX_EXEC_ARGUMENTS {
        ExpandStops(words, i + 1, |words|, e);
        return None;
      }
      expanded := next.value;
    }
    r := Some(expanded);
  }

  /** `parse_exec`. */
  method ReadExec<P>(value: string, e: Entry, resolve: string -> Option<P>) returns (r: Option<(P, seq<string>)>)
    ensures r == ParseExec(value, e, resolve)
  {
    if value == [] || !IsAscii(value) {
      return None;
    }
    var decoded := ReadString(value);
    if decoded.None? {
      return None;
    }
    var words := ReadWords(decoded.value);
    if words.None? {
      return None;
    }
    var expanded := ExpandWords(words.value, e);
    if expanded.None? || expanded.value == [] || expanded.value[0] == [] || '=' in expanded.value[0] {
      return None;
    }
    var program := resolve(expanded.value[0]);
    r := if program.None? then None else Some((program.value, expanded.value[1..]));
  }
}
