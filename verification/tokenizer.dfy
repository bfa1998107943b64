/** The tokenizer: a read cursor over the expression string that yields one
    token per `next` call (stack/main.cpp, class `tokenizer`). */
module Tokenizer {
  import opened Results
  import opened Tokens

  /** Outcome of one successful `next`: the end of input, or a token and the
      advanced cursor. */
  datatype Scan = Done | Produced(token: Token, next: nat)

  /** First position at or after `pos` that is not a blank (`skip_delimiters`). */
  function SkipDelimiters(s: string, pos: nat): (r: nat)
    requires pos <= |s|
    ensures pos <= r <= |s|
    ensures forall i | pos <= i < r :: IsDelimiter(s[i])
    ensures r == |s| || !IsDelimiter(s[r])
    decreases |s| - pos
  {
    if pos < |s| && IsDelimiter(s[pos]) then SkipDelimiters(s, pos + 1) else pos
  }

  /** End of the maximal digit run starting at `pos` (`read_digits`). */
  function ReadDigits(s: string, pos: nat): (r: nat)
    requires pos <= |s|
    ensures pos <= r <= |s|
    ensures forall i | pos <= i < r :: IsDigit(s[i])
    ensures r == |s| || !IsDigit(s[r])
    decreases |s| - pos
  {
    if pos < |s| && IsDigit(s[pos]) then ReadDigits(s, pos + 1) else pos
  }

  /** One `next` call from cursor `pos`. */
  function Next(s: string, pos: nat): (r: Result<Scan>)
    requires pos <= |s|
    // false (Done) exactly when only blanks remain
    ensures r == Ok(Done) <==> forall i | pos <= i < |s| :: IsDelimiter(s[i])
    // any other character than a blank, an operator or a digit is refused
    ensures r.Err? <==>
              var k := SkipDelimiters(s, pos);
              k < |s| && !IsOperatorChar(s[k]) && !IsDigit(s[k])
    ensures r.Err? ==> r.error == InvalidCharacter
    // a token strictly advances the cursor and is the text just read, after blanks only
    ensures r.Ok? && r.value.Produced? ==>
              && pos < r.value.next <= |s|
              && Wellformed(r.value.token)
              && var start := r.value.next - |Text(r.value.token)|;
              && pos <= start
              && s[start..r.value.next] == Text(r.value.token)
              && forall i | pos <= i < start :: IsDelimiter(s[i])
    // a number token is the whole digit run
    ensures r.Ok? && r.value.Produced? && r.value.token.Number? ==>
              r.value.next == |s| || !IsDigit(s[r.value.next])
  {
    var k := SkipDelimiters(s, pos);
    if k >= |s| then Ok(Done)
    else if IsOperatorChar(s[k]) then Ok(Produced(Function(s[k]), k + 1))
    else
      var e := ReadDigits(s, k);
      if e == k then Err(InvalidCharacter) else Ok(Produced(Number(s[k..e]), e))
  }

  /** Every token that repeated `next` calls produce from cursor `pos`, or the
      tokenizer's failure. */
  function TokenizeFrom(s: string, pos: nat): (r: Result<seq<Token>>)
    requires pos <= |s|
    ensures r.Ok? ==> forall i | 0 <= i < |r.value| :: Wellformed(r.value[i])
    ensures r.Ok? ==> |r.value| <= |s| - pos
    ensures r.Err? ==> r.error == InvalidCharacter
    decreases |s| - pos
  {
    match Next(s, pos)
    case Err(e) => Err(e)
    case Ok(Done) => Ok([])
    case Ok(Produced(t, n)) =>
      match TokenizeFrom(s, n)
      case Err(e) => Err(e)
      case Ok(ts) => Ok([t] + ts)
  }

  function Tokenize(s: string): Result<seq<Token>>
  {
    TokenizeFrom(s, 0)
  }

  /** Blank-only text. */
  predicate IsBlank(g: string)
  {
    forall i | 0 <= i < |g| :: IsDelimiter(g[i])
  }

  /** The text `gaps[0] + Text(ts[0]) + gaps[1] + ... + Text(ts[n-1]) + gaps[n]`. */
  function Layout(ts: seq<Token>, gaps: seq<string>): string
    requires |gaps| == |ts| + 1
    decreases |ts|
  {
    if ts == [] then gaps[0] else gaps[0] + Text(ts[0]) + Layout(ts[1..], gaps[1..])
  }

  /** Gaps that are blank and that separate every two adjacent number tokens. */
  predicate Separating(ts: seq<Token>, gaps: seq<string>)
    requires |gaps| == |ts| + 1
  {
    && (forall i | 0 <= i < |gaps| :: IsBlank(gaps[i]))
    && (forall i | 0 <= i < |ts| - 1 :: ts[i].Number? && ts[i + 1].Number? ==> gaps[i + 1] != [])
  }

  lemma SkipDelimitersAt(s: string, pos: nat, k: nat)
    requires pos <= k <= |s|
    requires forall i | pos <= i < k :: IsDelimiter(s[i])
    requires k == |s| || !IsDelimiter(s[k])
    ensures SkipDelimiters(s, pos) == k
  {
  }

  lemma ReadDigitsAt(s: string, pos: nat, k: nat)
    requires pos <= k <= |s|
    requires forall i | pos <= i < k :: IsDigit(s[i])
    requires k == |s| || !IsDigit(s[k])
    ensures ReadDigits(s, pos) == k
  {
  }

  /** Where the pieces of `g + w + rest` sit when that text starts at `pos`. */
  lemma LayoutPieces(s: string, pos: nat, g: string, w: string, rest: string)
    requires pos <= |s| && s[pos..] == g + w + rest
    ensures pos + |g| + |w| <= |s|
    ensures forall i | pos <= i < pos + |g| :: s[i] == g[i - pos]
    ensures s[pos + |g|..pos + |g| + |w|] == w
    ensures s[pos + |g| + |w|..] == rest
  {
    var k, n := pos + |g|, pos + |g| + |w|;
    forall i | pos <= i < k
      ensures s[i] == g[i - pos]
    {
      assert s[i] == (g + w + rest)[i - pos];
    }
    assert s[k..n] == w by {
      assert s[pos..][k - pos..n - pos] == (g + w + rest)[|g|..|g| + |w|];
    }
    assert s[n..] == rest by {
      assert s[pos..][n - pos..] == (g + w + rest)[|g| + |w|..];
    }
  }

  /** `next` reading a function symbol. */
  lemma NextSymbol(s: string, pos: nat, k: nat, c: char)
    requires pos <= k < |s| && SkipDelimiters(s, pos) == k
    requires s[k] == c && IsOperatorChar(c)
    ensures Next(s, pos) == Ok(Produced(Function(c), k + 1))
  {
  }

  /** `next` reading a digit run that the text ends or a non-digit follows. */
  lemma NextNumber(s: string, pos: nat, k: nat, n: nat, d: string)
    requires pos <= k < n <= |s| && SkipDelimiters(s, pos) == k
    requires s[k..n] == d && IsDigits(d)
    requires n == |s| || !IsDigit(s[n])
    ensures Next(s, pos) == Ok(Produced(Number(d), n))
  {
    forall i | k <= i < n
      ensures IsDigit(s[i])
    {
      assert s[i] == d[i - k];
    }
    ReadDigitsAt(s, k, n);
    assert IsDigit(s[k]) by { assert s[k] == d[0]; }
  }

  /** `next` on a separating layout reads its first token and stops right
      after it. */
  lemma NextOnLayout(s: string, pos: nat, ts: seq<Token>, gaps: seq<string>)
    requires pos <= |s|
    requires |gaps| == |ts| + 1 && |ts| > 0
    requires forall i | 0 <= i < |ts| :: Wellformed(ts[i])
    requires Separating(ts, gaps)
    requires s[pos..] == Layout(ts, gaps)
    ensures pos + |gaps[0]| + |Text(ts[0])| <= |s|
    ensures Next(s, pos) == Ok(Produced(ts[0], pos + |gaps[0]| + |Text(ts[0])|))
    ensures s[pos + |gaps[0]| + |Text(ts[0])|..] == Layout(ts[1..], gaps[1..])
  {
    var g, t := gaps[0], ts[0];
    var w := Text(t);
    var rest := Layout(ts[1..], gaps[1..]);
    var k, n := pos + |g|, pos + |g| + |w|;
    assert IsBlank(g);
    assert Wellformed(t);
    LayoutPieces(s, pos, g, w, rest);
    assert s[k] == w[0];
    assert !IsDelimiter(s[k]) by {
      if t.Number? { assert IsDigit(w[0]); }
    }
    SkipDelimitersAt(s, pos, k);
    if t.Function? {
      NextSymbol(s, pos, k, t.symbol);
    } else {
      assert n == |s| || !IsDigit(s[n]) by {
        if n < |s| {
          assert s[n] == rest[0];
          Separating1(ts, gaps);
          LayoutFirst(ts[1..], gaps[1..], t);
        }
      }
      NextNumber(s, pos, k, n, t.digits);
    }
  }

  /** A produced token heads what the rest of the text tokenizes to. */
  lemma TokenizeStep(s: string, pos: nat, t: Token, n: nat)
    requires pos <= |s| && n <= |s|
    requires Next(s, pos) == Ok(Produced(t, n))
    requires TokenizeFrom(s, n).Ok?
    ensures TokenizeFrom(s, pos) == Ok([t] + TokenizeFrom(s, n).value)
  {
  }

  /** The text from `pos` on is a separating layout of well-formed tokens. */
  predicate LaidOut(s: string, pos: nat, ts: seq<Token>, gaps: seq<string>)
  {
    && pos <= |s|
    && |gaps| == |ts| + 1
    && (forall i | 0 <= i < |ts| :: Wellformed(ts[i]))
    && Separating(ts, gaps)
    && s[pos..] == Layout(ts, gaps)
  }

  /** `next` on a layout reads its first token, and the rest of the text is
      the layout of the remaining tokens. */
  lemma LaidOutStep(s: string, pos: nat, ts: seq<Token>, gaps: seq<string>)
    requires LaidOut(s, pos, ts, gaps) && ts != []
    ensures var n := pos + |gaps[0]| + |Text(ts[0])|;
            && n <= |s|
            && Next(s, pos) == Ok(Produced(ts[0], n))
            && LaidOut(s, n, ts[1..], gaps[1..])
  {
    NextOnLayout(s, pos, ts, gaps);
    Separating1(ts, gaps);
  }

  /** Tokenizing the layout of well-formed tokens, from wherever it starts in a
      larger text, gives back exactly those tokens. */
  lemma {:induction false} TokenizeLayoutAt(s: string, pos: nat, ts: seq<Token>, gaps: seq<string>)
    requires LaidOut(s, pos, ts, gaps)
    ensures TokenizeFrom(s, pos) == Ok(ts)
    decreases |ts|
  {
    if ts == [] {
      assert IsBlank(gaps[0]);
      BlankRest(s, pos, gaps[0]);
    } else {
      var n := pos + |gaps[0]| + |Text(ts[0])|;
      LaidOutStep(s, pos, ts, gaps);
      assert Next(s, pos) == Ok(Produced(ts[0], n));
      TokenizeLayoutAt(s, n, ts[1..], gaps[1..]);
      assert TokenizeFrom(s, n).Ok?;
      TokenizeStep(s, pos, ts[0], n);
      assert ts == [ts[0]] + ts[1..];
    }
  }

  /** Only blanks left: the tokenizer is done. */
  lemma BlankRest(s: string, pos: nat, g: string)
    requires pos <= |s| && s[pos..] == g && IsBlank(g)
    ensures TokenizeFrom(s, pos) == Ok([])
  {
    forall i | pos <= i < |s|
      ensures IsDelimiter(s[i])
    {
      assert s[i] == s[pos..][i - pos] == g[i - pos];
    }
    assert Next(s, pos) == Ok(Done);
  }

  /** The tail of a separating layout is separating. */
  lemma Separating1(ts: seq<Token>, gaps: seq<string>)
    requires |ts| > 0 && |gaps| == |ts| + 1
    requires forall i | 0 <= i < |ts| :: Wellformed(ts[i])
    requires Separating(ts, gaps)
    ensures forall i | 0 <= i < |ts[1..]| :: Wellformed(ts[1..][i])
    ensures Separating(ts[1..], gaps[1..])
  {
    var ts', gaps' := ts[1..], gaps[1..];
    forall i | 0 <= i < |gaps'|
      ensures IsBlank(gaps'[i])
    {
      assert gaps'[i] == gaps[i + 1];
    }
    forall i | 0 <= i < |ts'| - 1 && ts'[i].Number? && ts'[i + 1].Number?
      ensures gaps'[i + 1] != []
    {
      assert ts'[i] == ts[i + 1] && ts'[i + 1] == ts[i + 2];
    }
  }

  /** What follows a number in a separating layout is never a digit. */
  lemma LayoutFirst(ts: seq<Token>, gaps: seq<string>, prev: Token)
    requires |gaps| == |ts| + 1
    requires forall i | 0 <= i < |ts| :: Wellformed(ts[i])
    requires Separating(ts, gaps)
    requires prev.Number? && |ts| > 0 && ts[0].Number? ==> gaps[0] != []
    requires prev.Number?
    requires |Layout(ts, gaps)| > 0
    ensures !IsDigit(Layout(ts, gaps)[0])
  {
    var l := Layout(ts, gaps);
    if gaps[0] != [] {
      assert IsBlank(gaps[0]);
      if ts == [] {
        assert l[0] == gaps[0][0];
      } else {
        assert l[0] == (gaps[0] + Text(ts[0]) + Layout(ts[1..], gaps[1..]))[0] == gaps[0][0];
      }
    } else {
      assert ts != [];
      assert Wellformed(ts[0]);
      assert l[0] == (gaps[0] + Text(ts[0]) + Layout(ts[1..], gaps[1..]))[0] == Text(ts[0])[0];
    }
  }

  /** The blank gaps that precede each token `next` reads from `pos`, and the
      blank tail after the last one. */
  function Gaps(s: string, pos: nat): seq<string>
    requires pos <= |s|
    decreases |s| - pos
  {
    match Next(s, pos)
    case Ok(Produced(t, n)) => [s[pos..n - |Text(t)|]] + Gaps(s, n)
    case _ => [s[pos..]]
  }

  /** Nothing `next` skips or reads on its way to a token is a stray character. */
  lemma NoStrayBefore(s: string, pos: nat, t: Token, n: nat)
    requires pos <= |s| && Next(s, pos) == Ok(Produced(t, n))
    ensures forall i | pos <= i < n :: !IsStray(s[i])
  {
    var start := n - |Text(t)|;
    TextChars(t);
    forall i | start <= i < n
      ensures !IsStray(s[i])
    {
      assert s[i] == s[start..n][i - start] == Text(t)[i - start];
    }
  }

  /** The tokenizer fails exactly on a text that holds a stray character from
      `pos` on. */
  lemma {:induction false} TokenizeFails(s: string, pos: nat)
    requires pos <= |s|
    ensures TokenizeFrom(s, pos).Err? <==> exists i | pos <= i < |s| :: IsStray(s[i])
    decreases |s| - pos
  {
    match Next(s, pos)
    case Err(_) =>
      var k := SkipDelimiters(s, pos);
      assert IsStray(s[k]);
    case Ok(Done) =>
      assert forall i | pos <= i < |s| :: IsDelimiter(s[i]);
    case Ok(Produced(t, n)) =>
      TokenizeFails(s, n);
      NoStrayBefore(s, pos, t, n);
      if exists i | pos <= i < |s| :: IsStray(s[i]) {
        var i :| pos <= i < |s| && IsStray(s[i]);
        assert n <= i;
      }
  }

  /** Gaps of a separating layout stay separating when a token and its gap go
      in front, as long as two numbers are kept apart. */
  lemma SeparatingCons(t: Token, g: string, ts: seq<Token>, gaps: seq<string>)
    requires |gaps| == |ts| + 1 && Separating(ts, gaps) && IsBlank(g)
    requires t.Number? && ts != [] && ts[0].Number? ==> gaps[0] != []
    ensures Separating([t] + ts, [g] + gaps)
  {
    var ts', gaps' := [t] + ts, [g] + gaps;
    forall i | 0 <= i < |gaps'|
      ensures IsBlank(gaps'[i])
    {
      if i > 0 { assert gaps'[i] == gaps[i - 1]; }
    }
    forall i | 0 <= i < |ts'| - 1 && ts'[i].Number? && ts'[i + 1].Number?
      ensures gaps'[i + 1] != []
    {
      assert gaps'[i + 1] == gaps[i] && ts'[i + 1] == ts[i];
      if i > 0 { assert ts'[i] == ts[i - 1]; }
    }
  }

  /** A layout that opens with a number and no gap starts with a digit. */
  lemma LeadingNumber(s: string, n: nat, ts: seq<Token>, gaps: seq<string>)
    requires LaidOut(s, n, ts, gaps) && ts != [] && ts[0].Number?
    ensures gaps[0] == [] ==> n < |s| && IsDigit(s[n])
  {
    if gaps[0] == [] {
      assert Wellformed(ts[0]);
      assert s[n..] == Text(ts[0]) + Layout(ts[1..], gaps[1..]);
      assert s[n] == s[n..][0] == Text(ts[0])[0];
    }
  }

  /** The text from `pos` is the gap, the token and the layout that follows. */
  lemma LayoutCons(s: string, pos: nat, t: Token, n: nat, ts: seq<Token>, gaps: seq<string>)
    requires pos <= n - |Text(t)| && n <= |s|
    requires s[n - |Text(t)|..n] == Text(t)
    requires |gaps| == |ts| + 1 && s[n..] == Layout(ts, gaps)
    ensures s[pos..] == Layout([t] + ts, [s[pos..n - |Text(t)|]] + gaps)
  {
    var start := n - |Text(t)|;
    var g := s[pos..start];
    assert ([t] + ts)[1..] == ts && ([g] + gaps)[1..] == gaps;
    assert Layout([t] + ts, [g] + gaps) == g + Text(t) + Layout(ts, gaps);
    SplitAt3(s, pos, start, n);
  }

  lemma SplitAt3(s: string, a: nat, b: nat, c: nat)
    requires a <= b <= c <= |s|
    ensures s[a..] == s[a..b] + s[b..c] + s[c..]
  {
  }

  /** A token read by `next` in front of a layout gives a layout one token
      longer. */
  lemma LaidOutCons(s: string, pos: nat, t: Token, n: nat, ts: seq<Token>, gaps: seq<string>)
    requires pos <= |s| && Next(s, pos) == Ok(Produced(t, n))
    requires LaidOut(s, n, ts, gaps)
    ensures LaidOut(s, pos, [t] + ts, [s[pos..n - |Text(t)|]] + gaps)
  {
    var g := s[pos..n - |Text(t)|];
    forall i | 0 <= i < |g|
      ensures IsDelimiter(g[i])
    {
      assert g[i] == s[pos + i];
    }
    if t.Number? && ts != [] && ts[0].Number? {
      LeadingNumber(s, n, ts, gaps);
    }
    SeparatingCons(t, g, ts, gaps);
    forall i | 0 <= i < |[t] + ts|
      ensures Wellformed(([t] + ts)[i])
    {
      if i > 0 { assert ([t] + ts)[i] == ts[i - 1]; }
    }
    LayoutCons(s, pos, t, n, ts, gaps);
  }

  /** Only blanks left: an empty layout with one gap. */
  lemma LaidOutBlank(s: string, pos: nat)
    requires pos <= |s| && forall i | pos <= i < |s| :: IsDelimiter(s[i])
    ensures LaidOut(s, pos, [], [s[pos..]])
  {
    var g := s[pos..];
    forall i | 0 <= i < |g|
      ensures IsDelimiter(g[i])
    {
      assert g[i] == s[pos + i];
    }
  }

  /** What the tokenizer reads is laid out in the text: its tokens with the
      blank gaps around them. */
  lemma {:induction false} TokenizedLayout(s: string, pos: nat)
    requires pos <= |s| && TokenizeFrom(s, pos).Ok?
    ensures LaidOut(s, pos, TokenizeFrom(s, pos).value, Gaps(s, pos))
    decreases |s| - pos
  {
    var scan := Next(s, pos);
    if scan.Ok? && scan.value.Produced? {
      TokenizedLayout(s, scan.value.next);
      TokenizedStep(s, pos, scan.value.token, scan.value.next);
    } else {
      assert scan == Ok(Done);
      LaidOutBlank(s, pos);
      assert TokenizeFrom(s, pos).value == [] && Gaps(s, pos) == [s[pos..]];
    }
  }

  /** One token in front of what the rest of the text reads as a layout. */
  lemma TokenizedStep(s: string, pos: nat, t: Token, n: nat)
    requires pos <= |s| && Next(s, pos) == Ok(Produced(t, n))
    requires TokenizeFrom(s, n).Ok? && LaidOut(s, n, TokenizeFrom(s, n).value, Gaps(s, n))
    ensures TokenizeFrom(s, pos).Ok?
    ensures LaidOut(s, pos, TokenizeFrom(s, pos).value, Gaps(s, pos))
  {
    var ts, gaps := TokenizeFrom(s, n).value, Gaps(s, n);
    LaidOutCons(s, pos, t, n, ts, gaps);
    TokenizeStep(s, pos, t, n);
    GapsStep(s, pos, t, n);
  }

  lemma GapsStep(s: string, pos: nat, t: Token, n: nat)
    requires pos <= |s| && Next(s, pos) == Ok(Produced(t, n))
    ensures pos <= n - |Text(t)| && n <= |s|
    ensures Gaps(s, pos) == [s[pos..n - |Text(t)|]] + Gaps(s, n)
  {
  }

  /** The tokenizer reads exactly the tokens a text lays out: it yields `ts`
      if and only if the text from `pos` is `ts` with separating blank gaps. */
  lemma TokenizeIsLayout(s: string, pos: nat, ts: seq<Token>)
    requires pos <= |s|
    ensures TokenizeFrom(s, pos) == Ok(ts) <==> exists gaps :: LaidOut(s, pos, ts, gaps)
  {
    if TokenizeFrom(s, pos) == Ok(ts) {
      TokenizedLayout(s, pos);
    }
    if exists gaps :: LaidOut(s, pos, ts, gaps) {
      var gaps :| LaidOut(s, pos, ts, gaps);
      TokenizeLayoutAt(s, pos, ts, gaps);
    }
  }

  /** Tokenization inverts layout: any blank spacing of well-formed tokens that
      keeps adjacent numbers apart tokenizes back to the same tokens. */
  lemma TokenizeLayout(ts: seq<Token>, gaps: seq<string>)
    requires |gaps| == |ts| + 1
    requires forall i | 0 <= i < |ts| :: Wellformed(ts[i])
    requires Separating(ts, gaps)
    ensures Tokenize(Layout(ts, gaps)) == Ok(ts)
  {
    var s := Layout(ts, gaps);
    assert s[0..] == s;
    TokenizeLayoutAt(s, 0, ts, gaps);
  }
}
