/**
 * The quote-aware splitting of a resolved command string into tokens:
 * a single left-to-right pass with a quoting flag, a token being built
 * and the tokens emitted so far.
 */
module Tokenizer {

  /** The scanner's state between two characters. */
  datatype ScanState = ScanState(inQuotes: bool, current: string, args: seq<string>)

  const Start: ScanState := ScanState(false, [], [])

  /** Emits `current` as a token unless it is empty. */
  function Flush(current: string, args: seq<string>): seq<string>
  {
    if current != [] then args + [current] else args
  }

  /**
   * One character: `"` toggles quoting and a closing quote emits the token
   * being built; a space outside quotes ends the token being built; every
   * other character (a space inside quotes, a tab, ...) joins the token.
   */
  function Step(st: ScanState, c: char): ScanState
  {
    if c == '"' then
      if st.inQuotes then ScanState(false, [], Flush(st.current, st.args))
      else ScanState(true, st.current, st.args)
    else if c == ' ' && !st.inQuotes then
      ScanState(false, [], Flush(st.current, st.args))
    else
      ScanState(st.inQuotes, st.current + [c], st.args)
  }

  /** The state after feeding `s` to the scanner, character by character. */
  function Scan(st: ScanState, s: string): ScanState
    decreases |s|
  {
    if s == [] then st else Scan(Step(st, s[0]), s[1..])
  }

  /** The tokens once the input is exhausted: a token still being built is emitted. */
  function Finish(st: ScanState): seq<string>
  {
    Flush(st.current, st.args)
  }

  /** The tokens of a command string; an unterminated quote is flushed at the end. */
  function Tokens(s: string): seq<string>
  {
    Finish(Scan(Start, s))
  }

  /** Scanning one more character is one more step. */
  lemma {:induction false} ScanSnoc(st: ScanState, s: string, c: char)
    ensures Scan(st, s + [c]) == Step(Scan(st, s), c)
    decreases |s|
  {
    if s == [] {
      assert [] + [c] == [c];
    } else {
      assert (s + [c])[1..] == s[1..] + [c];
      ScanSnoc(Step(st, s[0]), s[1..], c);
    }
  }

  /** The tokenizing loop: one pass over the characters of `s`. */
  method Tokenize(s: string) returns (args: seq<string>)
    ensures args == Tokens(s)
    ensures forall t :: t in args ==> t != [] && '"' !in t
  {
    args := [];
    var current: string := [];
    var inQuotes := false;
    for i := 0 to |s|
      invariant Scan(Start, s[..i]) == ScanState(inQuotes, current, args)
    {
      var c := s[i];
      if c == '"' {
        inQuotes := !inQuotes;
        if !inQuotes && current != [] {
          args := args + [current];
          current := [];
        }
      } else if c == ' ' && !inQuotes {
        if current != [] {
          args := args + [current];
          current := [];
        }
      } else {
        current := current + [c];
      }
      assert s[..i + 1] == s[..i] + [c];
      ScanSnoc(Start, s[..i], c);
    }
    if current != [] {
      args := args + [current];
    }
    assert s[..|s|] == s;
    TokensClean(s);
  }

  // ----- What the tokens are -----

  /** A token as the scanner emits it: non-empty and free of quotes. */
  predicate CleanToken(t: string)
  {
    t != [] && '"' !in t
  }

  predicate CleanState(st: ScanState)
  {
    '"' !in st.current && forall t :: t in st.args ==> CleanToken(t)
  }

  lemma {:induction false} ScanKeepsClean(st: ScanState, s: string)
    requires CleanState(st)
    ensures CleanState(Scan(st, s))
    decreases |s|
  {
    if s != [] {
      ScanKeepsClean(Step(st, s[0]), s[1..]);
    }
  }

  /** No token is empty and no token contains a double quote. */
  lemma TokensClean(s: string)
    ensures forall t :: t in Tokens(s) ==> t != [] && '"' !in t
  {
    ScanKeepsClean(Start, s);
  }

  /** The tokens joined end to end, with nothing between them. */
  function Concat(ts: seq<string>): string
  {
    if ts == [] then [] else Concat(ts[..|ts| - 1]) + ts[|ts| - 1]
  }

  lemma ConcatFlush(current: string, args: seq<string>)
    ensures Concat(Flush(current, args)) == Concat(args) + current
  {
    if current != [] {
      assert (args + [current])[..|args|] == args;
    }
  }

  /**
   * The characters of `s` that end up in some token, starting with the
   * quoting flag `inQuotes`: every `"` is dropped and toggles the flag,
   * every space outside quotes is dropped, everything else is kept.
   */
  function Kept(s: string, inQuotes: bool): string
    decreases |s|
  {
    if s == [] then []
    else if s[0] == '"' then Kept(s[1..], !inQuotes)
    else if s[0] == ' ' && !inQuotes then Kept(s[1..], inQuotes)
    else [s[0]] + Kept(s[1..], inQuotes)
  }

  /** The text the tokens emitted or in progress hold. */
  function Collected(st: ScanState): string
  {
    Concat(st.args) + st.current
  }

  lemma {:induction false} StepCollected(st: ScanState, s: string)
    requires s != []
    ensures var next := Step(st, s[0]);
            Collected(next) + Kept(s[1..], next.inQuotes) == Collected(st) + Kept(s, st.inQuotes)
  {
    var c := s[0];
    var next := Step(st, c);
    if c == '"' {
      assert Kept(s, st.inQuotes) == Kept(s[1..], !st.inQuotes);
      assert next.inQuotes == !st.inQuotes;
      if st.inQuotes {
        ConcatFlush(st.current, st.args);
        assert Collected(next) == Collected(st);
      } else {
        assert next == ScanState(true, st.current, st.args);
      }
    } else if c == ' ' && !st.inQuotes {
      assert Kept(s, st.inQuotes) == Kept(s[1..], st.inQuotes);
      ConcatFlush(st.current, st.args);
      assert Collected(next) == Collected(st);
    } else {
      assert Kept(s, st.inQuotes) == [c] + Kept(s[1..], st.inQuotes);
      assert next == ScanState(st.inQuotes, st.current + [c], st.args);
      assert Collected(next) == Collected(st) + [c];
    }
  }

  lemma {:induction false} ScanConcat(st: ScanState, s: string)
    ensures Concat(Finish(Scan(st, s))) == Collected(st) + Kept(s, st.inQuotes)
    decreases |s|
  {
    if s == [] {
      ConcatFlush(st.current, st.args);
    } else {
      ScanConcat(Step(st, s[0]), s[1..]);
      StepCollected(st, s);
    }
  }

  /**
   * No character is lost or reordered: the tokens joined end to end are
   * the input without its quotes and without its spaces outside quotes,
   * including what follows an unterminated quote.
   */
  lemma TokensConcat(s: string)
    ensures Concat(Tokens(s)) == Kept(s, false)
  {
    ScanConcat(Start, s);
  }

  // ----- Quote-free input -----

  /** The index of the first space of `s`, or `|s|` when there is none. */
  function SpaceIndex(s: string): (k: nat)
    ensures k <= |s|
    ensures k < |s| ==> s[k] == ' '
    ensures ' ' !in s[..k]
    decreases |s|
  {
    if s == [] || s[0] == ' ' then 0 else 1 + SpaceIndex(s[1..])
  }

  /** `s` split at every space, empty pieces dropped. */
  function Words(s: string): seq<string>
    decreases |s|
  {
    var k := SpaceIndex(s);
    var rest := if k < |s| then Words(s[k + 1..]) else [];
    if k == 0 then rest else [s[..k]] + rest
  }

  lemma {:induction false} SpaceIndexAfter(w: string, s: string)
    requires ' ' !in w && (s == [] || s[0] == ' ')
    ensures SpaceIndex(w + s) == |w|
    decreases |w|
  {
    if w != [] {
      assert (w + s)[0] == w[0];
      assert (w + s)[1..] == w[1..] + s;
      SpaceIndexAfter(w[1..], s);
    }
  }

  /** A space-free word on its own is one token, or none when empty. */
  lemma WordsOfWord(w: string)
    requires ' ' !in w
    ensures Words(w) == if w == [] then [] else [w]
  {
    SpaceIndexAfter(w, []);
    assert w + [] == w;
    assert w[..|w|] == w;
  }

  /** A space ends the word before it, which is emitted unless empty. */
  lemma WordsAtSpace(w: string, s: string)
    requires ' ' !in w && s != [] && s[0] == ' '
    ensures Words(w + s) == (if w == [] then [] else [w]) + Words(s[1..])
  {
    SpaceIndexAfter(w, s);
    assert (w + s)[..|w|] == w;
    assert (w + s)[|w| + 1..] == s[1..];
  }

  lemma {:induction false} ScanWords(current: string, args: seq<string>, s: string)
    requires '"' !in s && ' ' !in current
    ensures Finish(Scan(ScanState(false, current, args), s)) == args + Words(current + s)
    decreases |s|
  {
    if s == [] {
      assert current + s == current;
      WordsOfWord(current);
    } else if s[0] == ' ' {
      ScanWordsSpace(current, args, s);
    } else {
      ScanWordsChar(current, args, s);
    }
  }

  /** Emitting a word, then more tokens, is the word's token list followed by them. */
  lemma FlushThen(current: string, args: seq<string>, rest: seq<string>)
    ensures Flush(current, args) + rest == args + ((if current == [] then [] else [current]) + rest)
  {
  }

  lemma {:induction false} ScanWordsSpace(current: string, args: seq<string>, s: string)
    requires '"' !in s && ' ' !in current && s != [] && s[0] == ' '
    ensures Finish(Scan(ScanState(false, current, args), s)) == args + Words(current + s)
    decreases |s|, 0
  {
    var rest := Words(s[1..]);
    var emitted := Flush(current, args);
    assert Finish(Scan(ScanState(false, current, args), s)) == emitted + rest by {
      assert Scan(ScanState(false, current, args), s) == Scan(ScanState(false, [], emitted), s[1..]);
      ScanWords([], emitted, s[1..]);
      assert [] + s[1..] == s[1..];
    }
    WordsAtSpace(current, s);
    FlushThen(current, args, rest);
  }

  lemma {:induction false} ScanWordsChar(current: string, args: seq<string>, s: string)
    requires '"' !in s && ' ' !in current && s != [] && s[0] != ' '
    ensures Finish(Scan(ScanState(false, current, args), s)) == args + Words(current + s)
    decreases |s|, 0
  {
    var next := ScanState(false, current + [s[0]], args);
    assert Scan(ScanState(false, current, args), s) == Scan(next, s[1..]);
    ScanWords(current + [s[0]], args, s[1..]);
    assert current + [s[0]] + s[1..] == current + s;
  }

  /** Without quotes, tokenizing is splitting on spaces and dropping empty pieces. */
  lemma QuoteFreeTokensAreWords(s: string)
    requires '"' !in s
    ensures Tokens(s) == Words(s)
  {
    ScanWords([], [], s);
    assert [] + s == s;
  }

  // ----- Worked examples -----

  /** Scanning `a` then `b` is scanning `a + b`. */
  lemma {:induction false} ScanSplit(st: ScanState, a: string, b: string)
    ensures Scan(st, a + b) == Scan(Scan(st, a), b)
    decreases |a|
  {
    if a == [] {
      assert a + b == b;
    } else {
      assert (a + b)[1..] == a[1..] + b;
      ScanSplit(Step(st, a[0]), a[1..], b);
    }
  }

  /** Text without quotes, and without spaces unless quoted, just grows the token. */
  lemma {:induction false} ScanPlain(st: ScanState, w: string)
    requires '"' !in w && (st.inQuotes || ' ' !in w)
    ensures Scan(st, w) == ScanState(st.inQuotes, st.current + w, st.args)
    decreases |w|
  {
    if w == [] {
      assert st.current + w == st.current;
    } else {
      ScanPlain(Step(st, w[0]), w[1..]);
      assert st.current + [w[0]] + w[1..] == st.current + w;
    }
  }

  lemma ScanOne(st: ScanState, c: char)
    ensures Scan(st, [c]) == Step(st, c)
  {
    assert [c][1..] == [];
  }

  /** A quoted region, then a space and a plain word, are two tokens. */
  lemma QuotedThenWord(w1: string, w2: string)
    requires w1 != [] && '"' !in w1
    requires w2 != [] && '"' !in w2 && ' ' !in w2
    ensures Tokens("\"" + w1 + "\"" + " " + w2) == [w1, w2]
  {
    var q, sp := "\"", " ";
    var s1 := ScanState(true, [], []);
    var s2 := ScanState(true, w1, []);
    var s3 := ScanState(false, [], [w1]);
    assert Scan(Start, q) == s1 by { ScanOne(Start, '"'); }
    assert Scan(Start, q + w1) == s2 by {
      ScanSplit(Start, q, w1);
      ScanPlain(s1, w1);
      assert [] + w1 == w1;
    }
    assert Scan(Start, q + w1 + q) == s3 by {
      ScanSplit(Start, q + w1, q);
      ScanOne(s2, '"');
    }
    assert Scan(Start, q + w1 + q + sp) == s3 by {
      ScanSplit(Start, q + w1 + q, sp);
      ScanOne(s3, ' ');
    }
    assert Scan(Start, q + w1 + q + sp + w2) == ScanState(false, w2, [w1]) by {
      ScanSplit(Start, q + w1 + q + sp, w2);
      ScanPlain(s3, w2);
      assert [] + w2 == w2;
    }
  }

  /**
   * A closing quote ends the token being built: a quoted region followed
   * directly by a plain word, with no space between, is two tokens.
   */
  lemma ClosingQuoteEndsToken(w1: string, w2: string)
    requires w1 != [] && '"' !in w1
    requires w2 != [] && '"' !in w2 && ' ' !in w2
    ensures Tokens("\"" + w1 + "\"" + w2) == [w1, w2]
  {
    var q := "\"";
    var s1 := ScanState(true, [], []);
    var s2 := ScanState(true, w1, []);
    var s3 := ScanState(false, [], [w1]);
    assert Scan(Start, q) == s1 by { ScanOne(Start, '"'); }
    assert Scan(Start, q + w1) == s2 by {
      ScanSplit(Start, q, w1);
      ScanPlain(s1, w1);
      assert [] + w1 == w1;
    }
    assert Scan(Start, q + w1 + q) == s3 by {
      ScanSplit(Start, q + w1, q);
      ScanOne(s2, '"');
    }
    assert Scan(Start, q + w1 + q + w2) == ScanState(false, w2, [w1]) by {
      ScanSplit(Start, q + w1 + q, w2);
      ScanPlain(s3, w2);
      assert [] + w2 == w2;
    }
  }

  /**
   * An opening quote does not end the token being built: a word glued to
   * a quoted region becomes one token with it.
   */
  lemma OpeningQuoteJoins(w1: string, w2: string)
    requires w1 != [] && '"' !in w1 && ' ' !in w1
    requires '"' !in w2
    ensures Tokens(w1 + "\"" + w2 + "\"") == [w1 + w2]
  {
    var q := "\"";
    var s1 := ScanState(false, w1, []);
    var s2 := ScanState(true, w1, []);
    var s3 := ScanState(true, w1 + w2, []);
    assert Scan(Start, w1) == s1 by {
      ScanPlain(Start, w1);
      assert [] + w1 == w1;
    }
    assert Scan(Start, w1 + q) == s2 by {
      ScanSplit(Start, w1, q);
      ScanOne(s1, '"');
    }
    assert Scan(Start, w1 + q + w2) == s3 by {
      ScanSplit(Start, w1 + q, w2);
      ScanPlain(s2, w2);
    }
    assert Scan(Start, w1 + q + w2 + q) == ScanState(false, [], [w1 + w2]) by {
      ScanSplit(Start, w1 + q + w2, q);
      ScanOne(s3, '"');
    }
  }

  /** `"a"b` is two tokens, because the closing quote ends the first. */
  lemma ClosingQuoteExample()
    ensures Tokens("\"a\"b") == ["a", "b"]
  {
    assert "\"a\"b" == "\"" + "a" + "\"" + "b";
    ClosingQuoteEndsToken("a", "b");
  }

  /** A quoted region with a space in it is one token. */
  lemma QuotedExample()
    ensures Tokens("\"a b\" c") == ["a b", "c"]
  {
    assert "\"a b\" c" == "\"" + "a b" + "\"" + " " + "c";
    QuotedThenWord("a b", "c");
  }

  /**
   * Only the space separates tokens: a word with no space and no quote,
   * tabs and all, is a single token.
   */
  lemma SingleWord(w: string)
    requires w != [] && ' ' !in w && '"' !in w
    ensures Tokens(w) == [w]
  {
    assert Scan(Start, w) == ScanState(false, w, []) by {
      ScanPlain(Start, w);
      assert [] + w == w;
    }
    assert Flush(w, []) == [w];
  }

  /** Three plain words separated by single spaces are three tokens, in order. */
  lemma ThreeWords(w1: string, w2: string, w3: string)
    requires w1 != [] && '"' !in w1 && ' ' !in w1
    requires w2 != [] && '"' !in w2 && ' ' !in w2
    requires w3 != [] && '"' !in w3 && ' ' !in w3
    ensures Tokens(w1 + " " + w2 + " " + w3) == [w1, w2, w3]
  {
    var sp := " ";
    var s1 := ScanState(false, w1, []);
    var s2 := ScanState(false, [], [w1]);
    var s3 := ScanState(false, w2, [w1]);
    var s4 := ScanState(false, [], [w1, w2]);
    assert Scan(Start, w1) == s1 by {
      ScanPlain(Start, w1);
      assert [] + w1 == w1;
    }
    assert Scan(Start, w1 + sp) == s2 by {
      ScanSplit(Start, w1, sp);
      ScanOne(s1, ' ');
    }
    assert Scan(Start, w1 + sp + w2) == s3 by {
      ScanSplit(Start, w1 + sp, w2);
      ScanPlain(s2, w2);
      assert [] + w2 == w2;
    }
    assert Scan(Start, w1 + sp + w2 + sp) == s4 by {
      ScanSplit(Start, w1 + sp + w2, sp);
      ScanOne(s3, ' ');
    }
    assert Scan(Start, w1 + sp + w2 + sp + w3) == ScanState(false, w3, [w1, w2]) by {
      ScanSplit(Start, w1 + sp + w2 + sp, w3);
      ScanPlain(s4, w3);
      assert [] + w3 == w3;
    }
  }

  /** Unquoted words separated by single spaces are the tokens, in order. */
  lemma PlainExample()
    ensures Tokens("run --flag value") == ["run", "--flag", "value"]
  {
    assert "run --flag value" == "run" + " " + "--flag" + " " + "value";
    ThreeWords("run", "--flag", "value");
  }
}
