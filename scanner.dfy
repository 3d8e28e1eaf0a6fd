/** The scanning half of `shuntingYard`: how the whitespace-free input is cut
    into number runs, parentheses, operator characters and alphabetic runs.
    Characters outside those classes match no branch and are skipped. */
module Scanner {
  import opened Tokens

  /** One unit of input, as the scanning loop recognises it. */
  datatype Lexeme =
    | LNumber(text: string)  // a maximal run of digits and `.`
    | LOpen                  // `(`
    | LClose                 // `)`
    | LSymbol(c: char)       // one of `+ - * / ^ ~`
    | LWord(name: string)    // a maximal run of letters

  /** The length of the longest prefix of `s` made of digits and points. */
  function NumberRun(s: string): (n: nat)
    ensures n <= |s|
    ensures forall k :: 0 <= k < n ==> IsNumberChar(s[k])
    ensures n == |s| || !IsNumberChar(s[n])
  {
    if s != [] && IsNumberChar(s[0]) then 1 + NumberRun(s[1..]) else 0
  }

  /** The length of the longest prefix of `s` made of letters. */
  function WordRun(s: string): (n: nat)
    ensures n <= |s|
    ensures forall k :: 0 <= k < n ==> IsAlpha(s[k])
    ensures n == |s| || !IsAlpha(s[n])
  {
    if s != [] && IsAlpha(s[0]) then 1 + WordRun(s[1..]) else 0
  }

  /** A lexeme that the scanner can produce. */
  predicate WellFormedLexeme(l: Lexeme) {
    match l
    case LNumber(t) => |t| > 0 && forall k :: 0 <= k < |t| ==> IsNumberChar(t[k])
    case LWord(w) => |w| > 0 && forall k :: 0 <= k < |w| ==> IsAlpha(w[k])
    case LSymbol(c) => IsOperatorChar(c)
    case _ => true
  }

  /** The lexemes of `s`, left to right, in the order of the scanner's
      if/else chain: number run, `(`, `)`, operator character, letter run. */
  function Lex(s: string): seq<Lexeme>
    decreases |s|
  {
    if s == [] then []
    else if IsNumberChar(s[0]) then
      var n := NumberRun(s);
      [LNumber(s[..n])] + Lex(s[n..])
    else if s[0] == '(' then [LOpen] + Lex(s[1..])
    else if s[0] == ')' then [LClose] + Lex(s[1..])
    else if IsOperatorChar(s[0]) then [LSymbol(s[0])] + Lex(s[1..])
    else if IsAlpha(s[0]) then
      var n := WordRun(s);
      [LWord(s[..n])] + Lex(s[n..])
    else Lex(s[1..])
  }

  /** Every lexeme is a non-empty maximal run or a single recognised character. */
  lemma {:induction false} LexWellFormed(s: string)
    ensures forall k :: 0 <= k < |Lex(s)| ==> WellFormedLexeme(Lex(s)[k])
    decreases |s|
  {
    if s != [] {
      var n := if IsNumberChar(s[0]) then NumberRun(s) else if IsAlpha(s[0]) then WordRun(s) else 1;
      LexWellFormed(s[n..]);
    }
  }

  // ---------------------------------------------------------------------------
  // Nothing recognised is lost: spelling the lexemes back gives the input
  // without its unrecognised characters.
  // ---------------------------------------------------------------------------

  predicate Recognised(c: char) {
    IsNumberChar(c) || c == '(' || c == ')' || IsOperatorChar(c) || IsAlpha(c)
  }

  /** The input with every character the scanner skips removed. */
  function Keep(s: string): string {
    if s == [] then [] else (if Recognised(s[0]) then [s[0]] else []) + Keep(s[1..])
  }

  function SpellLexeme(l: Lexeme): string {
    match l
    case LNumber(t) => t
    case LOpen => "("
    case LClose => ")"
    case LSymbol(c) => [c]
    case LWord(w) => w
  }

  function Spell(ls: seq<Lexeme>): string {
    if ls == [] then [] else SpellLexeme(ls[0]) + Spell(ls[1..])
  }

  lemma {:induction false} KeepAppend(a: string, b: string)
    ensures Keep(a + b) == Keep(a) + Keep(b)
  {
    if a == [] {
      assert a + b == b;
    } else {
      var head := if Recognised(a[0]) then [a[0]] else [];
      assert (a + b)[0] == a[0];
      assert (a + b)[1..] == a[1..] + b;
      KeepAppend(a[1..], b);
      calc {
        Keep(a + b);
        head + Keep(a[1..] + b);
        head + (Keep(a[1..]) + Keep(b));
        (head + Keep(a[1..])) + Keep(b);
        Keep(a) + Keep(b);
      }
    }
  }

  lemma {:induction false} KeepRecognised(a: string)
    requires forall k :: 0 <= k < |a| ==> Recognised(a[k])
    ensures Keep(a) == a
  {
    if a != [] {
      KeepRecognised(a[1..]);
    }
  }

  /** Scanning loses exactly the characters it does not recognise. */
  lemma {:induction false} SpellLex(s: string)
    ensures Spell(Lex(s)) == Keep(s)
    decreases |s|
  {
    if s == [] {
    } else if IsNumberChar(s[0]) || IsAlpha(s[0]) {
      var n := if IsNumberChar(s[0]) then NumberRun(s) else WordRun(s);
      var head := if IsNumberChar(s[0]) then LNumber(s[..n]) else LWord(s[..n]);
      assert Lex(s) == [head] + Lex(s[n..]);
      assert ([head] + Lex(s[n..]))[1..] == Lex(s[n..]);
      SpellLex(s[n..]);
      assert s == s[..n] + s[n..];
      KeepAppend(s[..n], s[n..]);
      KeepRecognised(s[..n]);
    } else {
      var rest := Lex(s[1..]);
      SpellLex(s[1..]);
      if Recognised(s[0]) {
        var head := if s[0] == '(' then LOpen else if s[0] == ')' then LClose else LSymbol(s[0]);
        assert Lex(s) == [head] + rest;
        assert ([head] + rest)[1..] == rest;
      }
    }
  }

  // ---------------------------------------------------------------------------
  // Lexing from an index of the input, as the scanning loop walks it
  // ---------------------------------------------------------------------------

  /** Where the number run that starts at `i` ends. */
  function NumberEnd(s: string, i: nat): (j: nat)
    requires i <= |s|
    ensures i <= j <= |s|
    decreases |s| - i
  {
    if i < |s| && IsNumberChar(s[i]) then NumberEnd(s, i + 1) else i
  }

  /** Where the letter run that starts at `i` ends. */
  function WordEnd(s: string, i: nat): (j: nat)
    requires i <= |s|
    ensures i <= j <= |s|
    decreases |s| - i
  {
    if i < |s| && IsAlpha(s[i]) then WordEnd(s, i + 1) else i
  }

  /** The lexeme that starts at a recognised character `s[i]`, and the index
      just after it. */
  function LexemeAt(s: string, i: nat): (r: (Lexeme, nat))
    requires i < |s| && Recognised(s[i])
    ensures i < r.1 <= |s|
  {
    if IsNumberChar(s[i]) then
      var j := NumberEnd(s, i + 1);
      (LNumber(s[i..j]), j)
    else if s[i] == '(' then (LOpen, i + 1)
    else if s[i] == ')' then (LClose, i + 1)
    else if IsOperatorChar(s[i]) then (LSymbol(s[i]), i + 1)
    else
      var j := WordEnd(s, i + 1);
      (LWord(s[i..j]), j)
  }

  lemma {:induction false} NumberEndIsRun(s: string, i: nat)
    requires i <= |s|
    ensures NumberEnd(s, i) == i + NumberRun(s[i..])
    decreases |s| - i
  {
    if i < |s| && IsNumberChar(s[i]) {
      assert s[i..][1..] == s[i + 1..];
      NumberEndIsRun(s, i + 1);
    }
  }

  lemma {:induction false} WordEndIsRun(s: string, i: nat)
    requires i <= |s|
    ensures WordEnd(s, i) == i + WordRun(s[i..])
    decreases |s| - i
  {
    if i < |s| && IsAlpha(s[i]) {
      assert s[i..][1..] == s[i + 1..];
      WordEndIsRun(s, i + 1);
    }
  }

  lemma LexAtNumber(s: string, i: nat)
    requires i < |s| && IsNumberChar(s[i])
    ensures Lex(s[i..]) == [LNumber(s[i..NumberEnd(s, i)])] + Lex(s[NumberEnd(s, i)..])
  {
    var rest := s[i..];
    NumberEndIsRun(s, i);
    var j := NumberEnd(s, i);
    var n := NumberRun(rest);
    assert n == j - i;
    assert rest[0] == s[i];
    assert Lex(rest) == [LNumber(rest[..n])] + Lex(rest[n..]);
    assert rest[..n] == s[i..j];
    assert rest[n..] == s[j..];
  }

  lemma LexAtWord(s: string, i: nat)
    requires i < |s| && IsAlpha(s[i])
    ensures Lex(s[i..]) == [LWord(s[i..WordEnd(s, i)])] + Lex(s[WordEnd(s, i)..])
  {
    var rest := s[i..];
    WordEndIsRun(s, i);
    var j := WordEnd(s, i);
    var n := WordRun(rest);
    assert n == j - i;
    assert rest[0] == s[i];
    assert !IsNumberChar(rest[0]) && rest[0] != '(' && rest[0] != ')' && !IsOperatorChar(rest[0]);
    assert Lex(rest) == [LWord(rest[..n])] + Lex(rest[n..]);
    assert rest[..n] == s[i..j];
    assert rest[n..] == s[j..];
  }

  /** Lexing from `i` produces `LexemeAt(s, i)` and continues after it; an
      unrecognised character produces nothing. */
  lemma LexAt(s: string, i: nat)
    requires i < |s|
    ensures Recognised(s[i]) ==> Lex(s[i..]) == [LexemeAt(s, i).0] + Lex(s[LexemeAt(s, i).1..])
    ensures !Recognised(s[i]) ==> Lex(s[i..]) == Lex(s[i + 1..])
  {
    if IsNumberChar(s[i]) {
      LexAtNumber(s, i);
    } else if IsAlpha(s[i]) {
      LexAtWord(s, i);
    } else {
      assert s[i..][0] == s[i];
      assert s[i..][1..] == s[i + 1..];
    }
  }

  // ---------------------------------------------------------------------------
  // Lexing a text built piece by piece
  // ---------------------------------------------------------------------------

  lemma {:induction false} NumberRunAppend(t: string, rest: string)
    requires forall k :: 0 <= k < |t| ==> IsNumberChar(t[k])
    requires rest == [] || !IsNumberChar(rest[0])
    ensures NumberRun(t + rest) == |t|
  {
    if t != [] {
      assert (t + rest)[1..] == t[1..] + rest;
      NumberRunAppend(t[1..], rest);
    }
  }

  lemma {:induction false} WordRunAppend(w: string, rest: string)
    requires forall k :: 0 <= k < |w| ==> IsAlpha(w[k])
    requires rest == [] || !IsAlpha(rest[0])
    ensures WordRun(w + rest) == |w|
  {
    if w != [] {
      assert (w + rest)[1..] == w[1..] + rest;
      WordRunAppend(w[1..], rest);
    }
  }

  /** A number run followed by anything that cannot continue it is one lexeme. */
  lemma LexNumberThen(t: string, rest: string)
    requires t != [] && forall k :: 0 <= k < |t| ==> IsNumberChar(t[k])
    requires rest == [] || !IsNumberChar(rest[0])
    ensures Lex(t + rest) == [LNumber(t)] + Lex(rest)
  {
    NumberRunAppend(t, rest);
    assert (t + rest)[..|t|] == t;
    assert (t + rest)[|t|..] == rest;
  }

  /** A letter run followed by anything that cannot continue it is one lexeme. */
  lemma LexWordThen(w: string, rest: string)
    requires w != [] && forall k :: 0 <= k < |w| ==> IsAlpha(w[k])
    requires rest == [] || !IsAlpha(rest[0])
    ensures Lex(w + rest) == [LWord(w)] + Lex(rest)
  {
    WordRunAppend(w, rest);
    assert (w + rest)[0] == w[0];
    assert (w + rest)[..|w|] == w;
    assert (w + rest)[|w|..] == rest;
  }

  /** A parenthesis or an operator character is a lexeme of its own. */
  lemma LexCharThen(c: char, rest: string)
    requires c == '(' || c == ')' || IsOperatorChar(c)
    ensures Lex([c] + rest) == [if c == '(' then LOpen else if c == ')' then LClose else LSymbol(c)] + Lex(rest)
  {
    assert ([c] + rest)[1..] == rest;
  }
}
