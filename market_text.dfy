/**
 * The text side of the market client (pkg/bdoapi/bdoapi.go:248-386). An
 * unpacked market response is a list of records separated by `|`, each record
 * a list of decimal fields separated by `-`. `GetMarketList`,
 * `GetMarketSubList` and `GetBiddingInfoList` split the text, skip empty
 * records, parse the fields with `strconv.ParseInt(_, 10, 64)` and either
 * collect one object per record or stop at the first bad record. The HTTP
 * request and JSON decoding before the parse are not modelled: the raw text
 * is the input.
 */
module MarketText {
  import opened Wrappers

  const MinInt64: int := -0x8000_0000_0000_0000
  const MaxInt64: int := 0x7FFF_FFFF_FFFF_FFFF

  /** Go `int64`. */
  type int64 = x: int | -0x8000_0000_0000_0000 <= x <= 0x7FFF_FFFF_FFFF_FFFF

  // ---------------------------------------------------------------------
  // strings.Split, strings.SplitN and strings.Join on a one-character separator

  /** The position of the first c in s. */
  function IndexOf(s: string, c: char): (i: nat)
    requires c in s
    ensures i < |s| && s[i] == c
  {
    if s[0] == c then 0 else 1 + IndexOf(s[1..], c)
  }

  /** No c comes before the position IndexOf finds. */
  lemma {:induction false} IndexOfFirst(s: string, c: char)
    requires c in s
    ensures forall k :: 0 <= k < IndexOf(s, c) ==> s[k] != c
  {
    if s[0] != c {
      IndexOfFirst(s[1..], c);
      assert forall k :: 1 <= k <= |s[1..]| ==> s[k] == s[1..][k - 1];
    }
  }

  /** `strings.Split(s, sep)`: the pieces between the separators; never empty, pieces may be. */
  function Split(s: string, sep: char): (ps: seq<string>)
    ensures |ps| >= 1
    decreases |s|
  {
    if sep !in s then [s]
    else
      var i := IndexOf(s, sep);
      [s[..i]] + Split(s[i + 1..], sep)
  }

  /** `strings.SplitN(s, sep, n)` for n > 0: at most n pieces, the last one the unsplit rest. */
  function SplitN(s: string, sep: char, n: nat): (ps: seq<string>)
    requires n > 0
    ensures 1 <= |ps| <= n
    decreases n
  {
    if n == 1 || sep !in s then [s]
    else
      var i := IndexOf(s, sep);
      [s[..i]] + SplitN(s[i + 1..], sep, n - 1)
  }

  /** `strings.Join(ps, sep)`. */
  function Join(ps: seq<string>, sep: char): string {
    if ps == [] then []
    else if |ps| == 1 then ps[0]
    else ps[0] + [sep] + Join(ps[1..], sep)
  }

  /** The first separator of `x + [c] + rest`, when x has none, is the one after x. */
  lemma IndexAfter(x: string, c: char, rest: string)
    requires c !in x
    ensures c in x + [c] + rest && IndexOf(x + [c] + rest, c) == |x|
  {
    var s := x + [c] + rest;
    assert s[|x|] == c;
    var i := IndexOf(s, c);
    IndexOfFirst(s, c);
    assert forall k :: 0 <= k < |x| ==> s[k] == x[k];
  }

  lemma SplitCons(x: string, c: char, rest: string)
    requires c !in x
    ensures Split(x + [c] + rest, c) == [x] + Split(rest, c)
  {
    var s := x + [c] + rest;
    IndexAfter(x, c, rest);
    SplitStep(s, c);
    assert s[..|x|] == x && s[|x| + 1..] == rest;
  }

  lemma SplitNCons(x: string, c: char, rest: string, n: nat)
    requires c !in x && n > 1
    ensures SplitN(x + [c] + rest, c, n) == [x] + SplitN(rest, c, n - 1)
  {
    var s := x + [c] + rest;
    IndexAfter(x, c, rest);
    SplitNStep(s, c, n);
    assert s[..|x|] == x && s[|x| + 1..] == rest;
  }

  /** Joining the pieces of a split gives back the text. */
  lemma {:induction false} JoinSplit(s: string, c: char)
    ensures Join(Split(s, c), c) == s
    decreases |s|
  {
    if c in s {
      var i := IndexOf(s, c);
      var x, rest := s[..i], s[i + 1..];
      SplitStep(s, c);
      JoinSplit(rest, c);
      JoinCons(x, Split(rest, c), c);
      assert s == x + [c] + rest;
    } else {
      SplitNone(s, c, 1);
    }
  }

  /** No piece of a split holds the separator. */
  lemma {:induction false} SplitPiecesFree(s: string, c: char)
    ensures forall k :: 0 <= k < |Split(s, c)| ==> c !in Split(s, c)[k]
    decreases |s|
  {
    if c in s {
      var i := IndexOf(s, c);
      IndexOfFirst(s, c);
      SplitStep(s, c);
      SplitPiecesFree(s[i + 1..], c);
      assert forall k :: 0 <= k < i ==> s[..i][k] == s[k];
    } else {
      SplitNone(s, c, 1);
    }
  }

  lemma SplitStep(s: string, c: char)
    requires c in s
    ensures Split(s, c) == [s[..IndexOf(s, c)]] + Split(s[IndexOf(s, c) + 1..], c)
  {
  }

  lemma SplitNStep(s: string, c: char, n: nat)
    requires c in s && n > 1
    ensures SplitN(s, c, n) == [s[..IndexOf(s, c)]] + SplitN(s[IndexOf(s, c) + 1..], c, n - 1)
  {
  }

  lemma SplitNone(s: string, c: char, n: nat)
    requires c !in s && n > 0
    ensures Split(s, c) == [s] && SplitN(s, c, n) == [s]
  {
  }

  lemma JoinCons(x: string, ps: seq<string>, c: char)
    requires |ps| >= 1
    ensures Join([x] + ps, c) == x + [c] + Join(ps, c)
  {
    assert ([x] + ps)[1..] == ps;
  }

  /** Splitting a join of pieces free of the separator gives back the pieces. */
  lemma {:induction false} SplitJoin(ps: seq<string>, c: char)
    requires |ps| >= 1 && forall k :: 0 <= k < |ps| ==> c !in ps[k]
    ensures Split(Join(ps, c), c) == ps
    decreases |ps|
  {
    if |ps| == 1 {
      SplitNone(ps[0], c, 1);
      ConsTail(ps);
    } else {
      var x, t := ps[0], ps[1..];
      TailAvoids(ps, c, |ps|);
      SplitJoin(t, c);
      JoinUnfold(ps, c);
      SplitCons(x, c, Join(t, c));
      ConsTail(ps);
    }
  }

  /** The pieces after the first avoid c wherever the first m pieces did. */
  lemma TailAvoids(ps: seq<string>, c: char, m: nat)
    requires 0 < m <= |ps| && forall k :: 0 <= k < m ==> c !in ps[k]
    ensures c !in ps[0] && forall k :: 0 <= k < m - 1 ==> c !in ps[1..][k]
  {
    forall k | 0 <= k < m - 1 ensures c !in ps[1..][k] {
      assert ps[1..][k] == ps[k + 1];
    }
  }

  lemma JoinUnfold(ps: seq<string>, c: char)
    requires |ps| > 1
    ensures Join(ps, c) == ps[0] + [c] + Join(ps[1..], c)
  {
  }

  lemma ConsTail<T>(s: seq<T>)
    requires |s| > 0
    ensures [s[0]] + s[1..] == s && (|s| == 1 ==> s == [s[0]])
  {
  }

  /**
   * Splitting a join of n pieces into at most n pieces gives back the pieces
   * when none but the last holds the separator; the last may hold any.
   */
  lemma {:induction false} SplitNJoin(ps: seq<string>, c: char, n: nat)
    requires |ps| == n >= 1 && forall k :: 0 <= k < n - 1 ==> c !in ps[k]
    ensures SplitN(Join(ps, c), c, n) == ps
    decreases n, 1
  {
    if n == 1 {
      ConsTail(ps);
    } else {
      SplitNJoinStep(ps, c, n);
    }
  }

  lemma {:induction false} SplitNJoinStep(ps: seq<string>, c: char, n: nat)
    requires |ps| == n > 1 && forall k :: 0 <= k < n - 1 ==> c !in ps[k]
    ensures SplitN(Join(ps, c), c, n) == ps
    decreases n, 0
  {
    var x, t := ps[0], ps[1..];
    TailAvoids(ps, c, n - 1);
    SplitNJoin(t, c, n - 1);
    JoinUnfold(ps, c);
    SplitNCons(x, c, Join(t, c), n);
    ConsTail(ps);
  }

  /** With no more than n pieces to cut, SplitN and Split agree. */
  lemma {:induction false} SplitNFew(s: string, c: char, n: nat)
    requires n > 0 && |Split(s, c)| <= n
    ensures SplitN(s, c, n) == Split(s, c)
    decreases n, 1
  {
    if n == 1 {
      SplitOnce(s, c);
    } else if c in s {
      SplitNFewStep(s, c, n);
    } else {
      SplitNone(s, c, n);
    }
  }

  lemma {:induction false} SplitNFewStep(s: string, c: char, n: nat)
    requires n > 1 && c in s && |Split(s, c)| <= n
    ensures SplitN(s, c, n) == Split(s, c)
    decreases n, 0
  {
    var i := IndexOf(s, c);
    var x, rest := s[..i], s[i + 1..];
    SplitStep(s, c);
    SplitNStep(s, c, n);
    SplitNFew(rest, c, n - 1);
  }

  /**
   * With at least n pieces to cut, SplitN keeps the first n - 1 pieces of
   * Split and leaves the rest joined in its last piece.
   */
  lemma {:induction false} SplitNMany(s: string, c: char, n: nat)
    requires n > 0 && |Split(s, c)| >= n
    ensures |SplitN(s, c, n)| == n
    ensures SplitN(s, c, n)[..n - 1] == Split(s, c)[..n - 1]
    ensures SplitN(s, c, n)[n - 1] == Join(Split(s, c)[n - 1..], c)
    decreases n, 1
  {
    SplitLength(s, c);
    if n == 1 {
      SplitOnce(s, c);
    } else {
      SplitNManyStep(s, c, n);
    }
  }

  lemma {:induction false} SplitNManyStep(s: string, c: char, n: nat)
    requires n > 1 && c in s && |Split(s, c)| >= n
    ensures |SplitN(s, c, n)| == n
    ensures SplitN(s, c, n)[..n - 1] == Split(s, c)[..n - 1]
    ensures SplitN(s, c, n)[n - 1] == Join(Split(s, c)[n - 1..], c)
    decreases n, 0
  {
    var i := IndexOf(s, c);
    var x, rest := s[..i], s[i + 1..];
    var a, b := Split(rest, c), SplitN(rest, c, n - 1);
    SplitStep(s, c);
    SplitNStep(s, c, n);
    SplitNMany(rest, c, n - 1);
    ConsSlices(x, a, n - 1);
    ConsSlices(x, b, n - 1);
  }

  /** Slicing a sequence with one more element in front. */
  lemma ConsSlices<T>(x: T, a: seq<T>, k: nat)
    requires 1 <= k <= |a| + 1
    ensures |[x] + a| == |a| + 1
    ensures ([x] + a)[..k] == [x] + a[..k - 1] && ([x] + a)[k..] == a[k - 1..]
  {
  }

  /** A text splits into more than one piece exactly when it holds the separator. */
  lemma SplitLength(s: string, c: char)
    ensures c in s <==> |Split(s, c)| > 1
  {
    if c in s {
      SplitStep(s, c);
    } else {
      SplitNone(s, c, 1);
    }
  }

  /** SplitN with a limit of one, and the join of all of a split's pieces. */
  lemma SplitOnce(s: string, c: char)
    ensures SplitN(s, c, 1) == [s] && Join(Split(s, c)[0..], c) == s
    ensures |Split(s, c)| <= 1 ==> Split(s, c) == [s]
  {
    JoinSplit(s, c);
    assert Split(s, c)[0..] == Split(s, c);
    SplitLength(s, c);
    if c !in s {
      SplitNone(s, c, 1);
    }
  }

  /** A separator at the end adds one empty piece and leaves the others as they were. */
  lemma SplitSnoc(s: string, c: char)
    ensures Split(s + [c], c) == Split(s, c) + [[]]
  {
    SplitAppend(s, c, []);
    SplitNone([], c, 1);
    assert s + [c] + [] == s + [c];
  }

  // ---------------------------------------------------------------------
  // strconv.ParseInt(s, 10, 64) and strconv.FormatInt(n, 10)

  predicate IsDigit(ch: char) {
    '0' <= ch <= '9'
  }

  predicate AllDigits(s: string) {
    forall k :: 0 <= k < |s| ==> IsDigit(s[k])
  }

  /** The value of a string of decimal digits. */
  function DigitsValue(s: string): nat
    requires AllDigits(s)
  {
    if s == [] then 0 else 10 * DigitsValue(s[..|s| - 1]) + (s[|s| - 1] as int - '0' as int)
  }

  /**
   * `strconv.ParseInt(s, 10, 64)`: an optional `+` or `-`, then one or more
   * decimal digits, with the value within int64. Anything else is an error
   * (syntax or range; the callers treat both alike).
   */
  function ParseInt(s: string): (r: Option<int64>)
    ensures r.Some? ==> s != [] && '|' !in s
  {
    if s == [] then None
    else
      var body := if s[0] == '+' || s[0] == '-' then s[1..] else s;
      if body == [] || !AllDigits(body) then None
      else
        assert forall k :: 1 <= k < |s| ==> s[k] == body[k - (|s| - |body|)];
        var v: int := if s[0] == '-' then -(DigitsValue(body) as int) else DigitsValue(body);
        if MinInt64 <= v <= MaxInt64 then Some(v) else None
  }

  function DigitChar(d: nat): (ch: char)
    requires d < 10
    ensures IsDigit(ch)
  {
    ('0' as int + d) as char
  }

  /** The decimal digits of n, without leading zeros. */
  function Digits(n: nat): (s: string)
    ensures s != [] && AllDigits(s)
  {
    if n < 10 then [DigitChar(n)] else Digits(n / 10) + [DigitChar(n % 10)]
  }

  /** The digits of 10q + d are those of q followed by d. */
  lemma DigitsStep(q: nat, d: nat)
    requires q > 0 && d < 10
    ensures Digits(10 * q + d) == Digits(q) + [DigitChar(d)]
  {
    var n := 10 * q + d;
    assert n / 10 == q && n % 10 == d;
  }

  /** `strconv.FormatInt(n, 10)`. */
  function FormatInt(n: int): string {
    if n < 0 then ['-'] + Digits(-n) else Digits(n)
  }

  lemma {:induction false} DigitsValueOf(n: nat)
    ensures DigitsValue(Digits(n)) == n
  {
    if n >= 10 {
      DigitsValueOf(n / 10);
      var s := Digits(n);
      assert s[..|s| - 1] == Digits(n / 10);
    }
  }

  /** Parsing a formatted int64 gives it back. */
  lemma ParseFormat(n: int64)
    ensures ParseInt(FormatInt(n)) == Some(n)
  {
    if n < 0 {
      ParseFormatNegative(n);
    } else {
      ParseFormatNatural(n);
    }
  }

  lemma ParseFormatNegative(n: int64)
    requires n < 0
    ensures ParseInt(FormatInt(n)) == Some(n)
  {
    var m: nat := -(n as int);
    var d := Digits(m);
    DigitsValueOf(m);
    assert FormatInt(n) == ['-'] + d;
    assert (['-'] + d)[1..] == d;
  }

  lemma ParseFormatNatural(n: int64)
    requires n >= 0
    ensures ParseInt(FormatInt(n)) == Some(n)
  {
    var d := Digits(n);
    DigitsValueOf(n);
    assert FormatInt(n) == d;
    assert IsDigit(d[0]);
  }

  /** A formatted number is not empty, holds no `|`, and holds a `-` only when negative, and then only first. */
  lemma FormatIntChars(n: int)
    ensures FormatInt(n) != [] && '|' !in FormatInt(n)
    ensures n >= 0 ==> '-' !in FormatInt(n)
    ensures n < 0 ==> FormatInt(n)[0] == '-' && '-' !in FormatInt(n)[1..]
  {
    var d := if n < 0 then Digits(-n) else Digits(n);
    assert forall k :: 0 <= k < |d| ==> IsDigit(d[k]);
    if n < 0 {
      assert FormatInt(n)[1..] == d;
    }
  }

  // ---------------------------------------------------------------------
  // Records and the shared loop shape

  datatype MarketListObject = MarketListObject(itemID: int64, currentStock: int64, totalTrades: int64, basePrice: int64)

  datatype MarketSubListObject = MarketSubListObject(itemID: int64, currentStock: int64, totalTrades: int64, lastTradePrice: int64)

  datatype BiddingOrder = BiddingOrder(price: int64, sale: int64, buy: int64)

  /** The field named in a parse error. */
  datatype Field = ItemID | CurrentStock | TotalTrades | BasePrice | LastTradePrice | Price | Sale | Buy

  /**
   * Why a parse stopped. `record` is the index of the piece among all the
   * `|`-separated pieces (empty ones included) for the two market lists, and
   * the main key for the bidding list, whose messages print that instead.
   */
  datatype ParseFailure = WrongFormat(record: int) | BadField(record: int, field: Field)

  /** What one iteration of a parse loop does with its piece. */
  datatype Step<T> = Keep(value: T) | Skip | Fail(error: ParseFailure)

  /** The loop over the first n pieces: the kept values in order, or the first failure. */
  function Collect<T>(parts: seq<string>, n: nat, step: (string, nat) -> Step<T>): Result<seq<T>, ParseFailure>
    requires n <= |parts|
  {
    if n == 0 then Ok([])
    else
      match Collect(parts, n - 1, step)
      case Err(e) => Err(e)
      case Ok(prev) =>
        match step(parts[n - 1], n - 1)
        case Keep(v) => Ok(prev + [v])
        case Skip => Ok(prev)
        case Fail(e) => Err(e)
  }

  /** One more piece, kept. */
  lemma CollectKeep<T>(parts: seq<string>, n: nat, step: (string, nat) -> Step<T>, out: seq<T>, v: T)
    requires n < |parts| && Collect(parts, n, step) == Ok(out) && step(parts[n], n) == Keep(v)
    ensures Collect(parts, n + 1, step) == Ok(out + [v])
  {
  }

  /** One more piece, skipped. */
  lemma CollectSkip<T>(parts: seq<string>, n: nat, step: (string, nat) -> Step<T>, out: seq<T>)
    requires n < |parts| && Collect(parts, n, step) == Ok(out) && step(parts[n], n) == Skip
    ensures Collect(parts, n + 1, step) == Ok(out)
  {
  }

  /** One more piece, failing: the whole loop fails with its error. */
  lemma CollectFail<T>(parts: seq<string>, n: nat, step: (string, nat) -> Step<T>, out: seq<T>, e: ParseFailure)
    requires n < |parts| && Collect(parts, n, step) == Ok(out) && step(parts[n], n) == Fail(e)
    ensures Collect(parts, |parts|, step) == Err(e)
  {
    CollectErrStays(parts, n + 1, |parts|, step);
  }

  /** Once the loop has failed, later pieces change nothing. */
  lemma {:induction false} CollectErrStays<T>(parts: seq<string>, n: nat, m: nat, step: (string, nat) -> Step<T>)
    requires n <= m <= |parts| && Collect(parts, n, step).Err?
    ensures Collect(parts, m, step) == Collect(parts, n, step)
    decreases m - n
  {
    if n < m {
      CollectErrStays(parts, n, m - 1, step);
    }
  }

  /** The loop succeeds exactly when no piece fails, and then yields the kept values in order. */
  lemma {:induction false} CollectOk<T>(parts: seq<string>, n: nat, step: (string, nat) -> Step<T>)
    requires n <= |parts|
    ensures Collect(parts, n, step).Ok? <==> forall i :: 0 <= i < n ==> !step(parts[i], i).Fail?
    ensures Collect(parts, n, step).Ok? ==> Collect(parts, n, step).value == Kept(parts, n, step)
  {
    if n > 0 {
      CollectOk(parts, n - 1, step);
    }
  }

  /** The failure reported is that of the first failing piece. */
  lemma {:induction false} CollectFirstFailure<T>(parts: seq<string>, n: nat, step: (string, nat) -> Step<T>) returns (i: nat)
    requires n <= |parts| && Collect(parts, n, step).Err?
    ensures i < n && step(parts[i], i) == Fail(Collect(parts, n, step).error)
    ensures forall j :: 0 <= j < i ==> !step(parts[j], j).Fail?
  {
    CollectOk(parts, n - 1, step);
    if Collect(parts, n - 1, step).Err? {
      i := CollectFirstFailure(parts, n - 1, step);
    } else {
      i := n - 1;
    }
  }

  /** The values the kept pieces yield, in order, failures ignored. */
  function Kept<T>(parts: seq<string>, n: nat, step: (string, nat) -> Step<T>): seq<T>
    requires n <= |parts|
  {
    if n == 0 then []
    else
      var prev := Kept(parts, n - 1, step);
      match step(parts[n - 1], n - 1)
      case Keep(v) => prev + [v]
      case _ => prev
  }

  /** The positions of the kept pieces among the first n, in increasing order. */
  function KeptIndices<T>(parts: seq<string>, n: nat, step: (string, nat) -> Step<T>): (ix: seq<nat>)
    requires n <= |parts|
    ensures forall k :: 0 <= k < |ix| ==> ix[k] < n && step(parts[ix[k]], ix[k]).Keep?
    ensures forall k, l :: 0 <= k < l < |ix| ==> ix[k] < ix[l]
    ensures forall i :: 0 <= i < n && step(parts[i], i).Keep? ==> i in ix
  {
    if n == 0 then []
    else
      var prev := KeptIndices(parts, n - 1, step);
      if step(parts[n - 1], n - 1).Keep? then prev + [n - 1] else prev
  }

  /** The k-th value of vs comes from piece ix[k]. */
  ghost predicate KeptFrom<T>(parts: seq<string>, ix: seq<nat>, vs: seq<T>, step: (string, nat) -> Step<T>) {
    && |vs| == |ix|
    && forall k :: 0 <= k < |vs| ==> ix[k] < |parts| && step(parts[ix[k]], ix[k]) == Keep(vs[k])
  }

  /** The k-th kept value comes from the k-th kept piece. */
  lemma {:induction false} KeptAt<T>(parts: seq<string>, n: nat, step: (string, nat) -> Step<T>)
    requires n <= |parts|
    ensures KeptFrom(parts, KeptIndices(parts, n, step), Kept(parts, n, step), step)
  {
    if n > 0 {
      KeptAt(parts, n - 1, step);
      var ix, vs := KeptIndices(parts, n - 1, step), Kept(parts, n - 1, step);
      if step(parts[n - 1], n - 1).Keep? {
        KeptFromSnoc(parts, ix, vs, step, n - 1, step(parts[n - 1], n - 1).value);
      }
    }
  }

  lemma KeptFromSnoc<T>(parts: seq<string>, ix: seq<nat>, vs: seq<T>, step: (string, nat) -> Step<T>, i: nat, v: T)
    requires KeptFrom(parts, ix, vs, step) && i < |parts| && step(parts[i], i) == Keep(v)
    ensures KeptFrom(parts, ix + [i], vs + [v], step)
  {
    assert forall k :: 0 <= k < |vs| ==> (ix + [i])[k] == ix[k] && (vs + [v])[k] == vs[k];
  }

  /** Pieces added after the first n do not change the loop over the first n. */
  lemma {:induction false} CollectPrefix<T>(parts: seq<string>, more: seq<string>, n: nat, step: (string, nat) -> Step<T>)
    requires n <= |parts|
    ensures Collect(parts + more, n, step) == Collect(parts, n, step)
  {
    if n > 0 {
      CollectPrefix(parts, more, n - 1, step);
      assert (parts + more)[n - 1] == parts[n - 1];
    }
  }

  /** A last piece the loop skips changes nothing. */
  lemma CollectSnocSkip<T>(parts: seq<string>, x: string, step: (string, nat) -> Step<T>)
    requires step(x, |parts|).Skip?
    ensures Collect(parts + [x], |parts| + 1, step) == Collect(parts, |parts|, step)
  {
    CollectPrefix(parts, [x], |parts|, step);
    assert (parts + [x])[|parts|] == x;
  }

  /** When every piece yields the matching value, the loop yields exactly those values. */
  lemma {:induction false} CollectAllKept<T>(parts: seq<string>, vs: seq<T>, n: nat, step: (string, nat) -> Step<T>)
    requires n <= |parts| == |vs|
    requires forall i :: 0 <= i < |parts| ==> step(parts[i], i) == Keep(vs[i])
    ensures Collect(parts, n, step) == Ok(vs[..n])
  {
    if n > 0 {
      CollectAllKept(parts, vs, n - 1, step);
      assert vs[..n] == vs[..n - 1] + [vs[n - 1]];
    }
  }

  // ---------------------------------------------------------------------
  // GetMarketList

  /** One piece of `GetMarketList`: four fields, the last one the unsplit rest. */
  function MarketListStep(rec: string, idx: nat): Step<MarketListObject> {
    if rec == [] then Skip
    else
      var fs := SplitN(rec, '-', 4);
      if |fs| != 4 then Fail(WrongFormat(idx)) else MarketFields(fs, idx)
  }

  /** The fields of a market-list record, in the order `GetMarketList` parses them. */
  const MarketFieldNames: seq<Field> := [ItemID, CurrentStock, TotalTrades, BasePrice]

  /** The four fields of a market-list record, parsed in order; the first that fails is reported. */
  function MarketFields(fs: seq<string>, idx: nat): (r: Step<MarketListObject>)
    requires |fs| == 4
    ensures !r.Skip? && (r.Fail? ==> r.error.BadField? && r.error.record == idx)
    ensures r.Keep? <==> forall k :: 0 <= k < 4 ==> ParseInt(fs[k]).Some?
  {
    var itemID := ParseInt(fs[0]);
    if itemID.None? then Fail(BadField(idx, ItemID))
    else
      var curr := ParseInt(fs[1]);
      if curr.None? then Fail(BadField(idx, CurrentStock))
      else
        var total := ParseInt(fs[2]);
        if total.None? then Fail(BadField(idx, TotalTrades))
        else
          var price := ParseInt(fs[3]);
          if price.None? then Fail(BadField(idx, BasePrice))
          else Keep(MarketListObject(itemID.value, curr.value, total.value, price.value))
  }

  /** A failure names the first field, in parsing order, that does not parse. */
  lemma MarketFieldsNamesField(fs: seq<string>, idx: nat, k: nat)
    requires |fs| == 4 && k < 4 && ParseInt(fs[k]).None?
    requires forall j :: 0 <= j < k ==> ParseInt(fs[j]).Some?
    ensures MarketFields(fs, idx) == Fail(BadField(idx, MarketFieldNames[k]))
  {
  }

  /** What `GetMarketList` returns for the raw text. */
  function MarketList(raw: string): Result<seq<MarketListObject>, ParseFailure> {
    var parts := Split(raw, '|');
    Collect(parts, |parts|, MarketListStep)
  }

  /** `GetMarketList` after the request: the loop over the `|`-separated pieces. */
  method GetMarketList(raw: string) returns (res: Result<seq<MarketListObject>, ParseFailure>)
    ensures res == MarketList(raw)
  {
    var parts := Split(raw, '|');
    var out: seq<MarketListObject> := [];
    for idx := 0 to |parts|
      invariant Collect(parts, idx, MarketListStep) == Ok(out)
    {
      var rec := parts[idx];
      if rec == [] {
        CollectSkip(parts, idx, MarketListStep, out);
        continue;
      }
      var fs := SplitN(rec, '-', 4);
      if |fs| != 4 {
        res := Err(WrongFormat(idx));
        CollectFail(parts, idx, MarketListStep, out, res.error);
        return;
      }
      var itemID := ParseInt(fs[0]);
      if itemID.None? {
        res := Err(BadField(idx, ItemID));
        CollectFail(parts, idx, MarketListStep, out, res.error);
        return;
      }
      var curr := ParseInt(fs[1]);
      if curr.None? {
        res := Err(BadField(idx, CurrentStock));
        CollectFail(parts, idx, MarketListStep, out, res.error);
        return;
      }
      var total := ParseInt(fs[2]);
      if total.None? {
        res := Err(BadField(idx, TotalTrades));
        CollectFail(parts, idx, MarketListStep, out, res.error);
        return;
      }
      var price := ParseInt(fs[3]);
      if price.None? {
        res := Err(BadField(idx, BasePrice));
        CollectFail(parts, idx, MarketListStep, out, res.error);
        return;
      }
      var o := MarketListObject(itemID.value, curr.value, total.value, price.value);
      CollectKeep(parts, idx, MarketListStep, out, o);
      out := out + [o];
    }
    return Ok(out);
  }

  /** The record text of one market-list object, fields in order. */
  function MarketRecord(o: MarketListObject): string {
    Join([FormatInt(o.itemID), FormatInt(o.currentStock), FormatInt(o.totalTrades), FormatInt(o.basePrice)], '-')
  }

  /**
   * A record written from an object reads back as that object, provided its
   * first three fields are not negative; the last field, being the unsplit
   * rest, may be.
   */
  lemma MarketRecordRoundTrip(o: MarketListObject, idx: nat)
    requires o.itemID >= 0 && o.currentStock >= 0 && o.totalTrades >= 0
    ensures MarketListStep(MarketRecord(o), idx) == Keep(o)
  {
    var fs := [FormatInt(o.itemID), FormatInt(o.currentStock), FormatInt(o.totalTrades), FormatInt(o.basePrice)];
    FormatIntChars(o.itemID);
    FormatIntChars(o.currentStock);
    FormatIntChars(o.totalTrades);
    SplitNJoin(fs, '-', 4);
    JoinNonEmpty(fs, '-');
    ParseFormat(o.itemID);
    ParseFormat(o.currentStock);
    ParseFormat(o.totalTrades);
    ParseFormat(o.basePrice);
  }

  lemma JoinNonEmpty(ps: seq<string>, c: char)
    requires |ps| >= 1 && ps[0] != []
    ensures Join(ps, c) != [] && Join(ps, c)[0] == ps[0][0]
  {
  }

  /** A record whose text starts with `-` always fails: its first field is empty. */
  lemma LeadingDashFails(rest: string, idx: nat)
    ensures MarketListStep(['-'] + rest, idx).Fail?
  {
    var rec := ['-'] + rest;
    IndexAfter([], '-', rest);
    assert [] + ['-'] + rest == rec;
  }

  /** A record's fields are free of `|`, so the record is too. */
  lemma MarketRecordNoBar(o: MarketListObject)
    ensures '|' !in MarketRecord(o)
  {
    FormatIntChars(o.itemID);
    FormatIntChars(o.currentStock);
    FormatIntChars(o.totalTrades);
    FormatIntChars(o.basePrice);
    JoinAvoids([FormatInt(o.itemID), FormatInt(o.currentStock), FormatInt(o.totalTrades), FormatInt(o.basePrice)], '-', '|');
  }

  /** A join avoids any character that neither the pieces nor the separator hold. */
  lemma {:induction false} JoinAvoids(ps: seq<string>, c: char, d: char)
    requires c != d && forall k :: 0 <= k < |ps| ==> d !in ps[k]
    ensures d !in Join(ps, c)
    decreases |ps|
  {
    if |ps| > 1 {
      JoinAvoids(ps[1..], c, d);
    }
  }

  /** Records as the service sends them: each one followed by `|`. */
  function Lines(ps: seq<string>): string {
    if ps == [] then [] else ps[0] + ['|'] + Lines(ps[1..])
  }

  /** Records free of `|` split back into themselves and one empty piece after the last `|`. */
  lemma {:induction false} LinesSplit(ps: seq<string>)
    requires forall k :: 0 <= k < |ps| ==> '|' !in ps[k]
    ensures Split(Lines(ps), '|') == ps + [[]]
  {
    if ps == [] {
      SplitNone([], '|', 1);
    } else {
      LinesSplit(ps[1..]);
      SplitCons(ps[0], '|', Lines(ps[1..]));
      assert [ps[0]] + (ps[1..] + [[]]) == ps + [[]];
    }
  }

  /** The text of a list of objects. */
  function MarketListText(os: seq<MarketListObject>): string {
    Lines(seq(|os|, k requires 0 <= k < |os| => MarketRecord(os[k])))
  }

  /** Writing objects as text and reading it back gives the objects. */
  lemma MarketListRoundTrip(os: seq<MarketListObject>)
    requires forall k :: 0 <= k < |os| ==> os[k].itemID >= 0 && os[k].currentStock >= 0 && os[k].totalTrades >= 0
    ensures MarketList(MarketListText(os)) == Ok(os)
  {
    var recs := seq(|os|, k requires 0 <= k < |os| => MarketRecord(os[k]));
    forall k | 0 <= k < |os| ensures '|' !in recs[k] && MarketListStep(recs[k], k) == Keep(os[k]) {
      MarketRecordNoBar(os[k]);
      MarketRecordRoundTrip(os[k], k);
    }
    LinesSplit(recs);
    CollectAllKept(recs, os, |os|, MarketListStep);
    assert os[..|os|] == os;
    CollectSnocSkip(recs, [], MarketListStep);
  }

  /**
   * On success there is one object per non-empty piece, in the order of the
   * pieces; empty pieces yield nothing.
   */
  lemma MarketListPieces(raw: string)
    requires MarketList(raw).Ok?
    ensures var parts := Split(raw, '|');
            var out := MarketList(raw).value;
            var ix := KeptIndices(parts, |parts|, MarketListStep);
            && |out| == |ix|
            && (forall k :: 0 <= k < |out| ==> MarketListStep(parts[ix[k]], ix[k]) == Keep(out[k]))
            && (forall i :: 0 <= i < |parts| ==> (i in ix <==> parts[i] != []))
  {
    var parts := Split(raw, '|');
    CollectOk(parts, |parts|, MarketListStep);
    KeptAt(parts, |parts|, MarketListStep);
    var ix := KeptIndices(parts, |parts|, MarketListStep);
    forall i | 0 <= i < |parts| ensures i in ix <==> parts[i] != [] {
      assert MarketListStep(parts[i], i).Keep? <==> parts[i] != [];
    }
  }

  /** Piece i is the first of the pieces that fails, with error e naming it. */
  predicate FirstBadRecord(parts: seq<string>, i: nat, e: ParseFailure) {
    && i < |parts| && parts[i] != [] && e.record == i
    && MarketListStep(parts[i], i) == Fail(e)
    && forall j :: 0 <= j < i ==> !MarketListStep(parts[j], j).Fail?
  }

  /** On failure, the error names the first piece that fails, and that piece is not empty. */
  lemma MarketListFirstError(raw: string)
    requires MarketList(raw).Err?
    ensures exists i :: FirstBadRecord(Split(raw, '|'), i, MarketList(raw).error)
  {
    var parts := Split(raw, '|');
    var i := CollectFirstFailure(parts, |parts|, MarketListStep);
    MarketListFailure(parts[i], i);
    var step := MarketListStep;
    forall j | 0 <= j < i ensures !MarketListStep(parts[j], j).Fail? {
      assert !step(parts[j], j).Fail?;
    }
    assert FirstBadRecord(parts, i, MarketList(raw).error);
  }

  lemma MarketListFailure(rec: string, idx: nat)
    ensures MarketListStep(rec, idx).Fail? ==> rec != [] && MarketListStep(rec, idx).error.record == idx
  {
  }

  /** A record is rejected as malformed exactly when it has fewer than four `-`-separated fields. */
  lemma MarketListFieldCount(rec: string, idx: nat)
    requires rec != []
    ensures MarketListStep(rec, idx) == Fail(WrongFormat(idx)) <==> |Split(rec, '-')| < 4
  {
    if |Split(rec, '-')| < 4 {
      SplitNFew(rec, '-', 4);
    } else {
      SplitNMany(rec, '-', 4);
    }
  }

  /** A `|` at the end of the text changes nothing. */
  lemma MarketListTrailingBar(raw: string)
    ensures MarketList(raw + ['|']) == MarketList(raw)
  {
    SplitSnoc(raw, '|');
    assert MarketListStep([], |Split(raw, '|')|) == Skip;
    CollectSnocSkip(Split(raw, '|'), [], MarketListStep);
  }

  // ---------------------------------------------------------------------
  // GetMarketSubList

  /** One piece of `GetMarketSubList`: ten fields, the last one the unsplit rest. */
  function SubListStep(rec: string, idx: nat): Step<MarketSubListObject> {
    if rec == [] then Skip
    else
      var fs := SplitN(rec, '-', 10);
      if |fs| != 10 then Fail(WrongFormat(idx)) else SubListFields(fs, idx)
  }

  /** The positions of the sub-list fields `GetMarketSubList` reads, in the order it parses them. */
  const SubListUsed: seq<nat> := [0, 4, 5, 8]

  /** The names those fields carry in its error messages. */
  const SubListFieldNames: seq<Field> := [ItemID, CurrentStock, TotalTrades, LastTradePrice]

  /** The 1st, 5th, 6th and 9th of a sub-list record's ten fields, parsed in that order; the others are not looked at. */
  function SubListFields(fs: seq<string>, idx: nat): (r: Step<MarketSubListObject>)
    requires |fs| == 10
    ensures !r.Skip? && (r.Fail? ==> r.error.BadField? && r.error.record == idx)
    ensures r.Keep? <==> ParseInt(fs[0]).Some? && ParseInt(fs[4]).Some? && ParseInt(fs[5]).Some? && ParseInt(fs[8]).Some?
  {
    var itemID := ParseInt(fs[0]);
    if itemID.None? then Fail(BadField(idx, ItemID))
    else
      var curr := ParseInt(fs[4]);
      if curr.None? then Fail(BadField(idx, CurrentStock))
      else
        var total := ParseInt(fs[5]);
        if total.None? then Fail(BadField(idx, TotalTrades))
        else
          var price := ParseInt(fs[8]);
          if price.None? then Fail(BadField(idx, LastTradePrice))
          else Keep(MarketSubListObject(itemID.value, curr.value, total.value, price.value))
  }

  /** A failure names the first used field, in parsing order, that does not parse. */
  lemma SubListFieldsNamesField(fs: seq<string>, idx: nat, k: nat)
    requires |fs| == 10 && k < 4 && ParseInt(fs[SubListUsed[k]]).None?
    requires forall j :: 0 <= j < k ==> ParseInt(fs[SubListUsed[j]]).Some?
    ensures SubListFields(fs, idx) == Fail(BadField(idx, SubListFieldNames[k]))
  {
    assert SubListUsed[0] == 0 && SubListUsed[1] == 4 && SubListUsed[2] == 5 && SubListUsed[3] == 8;
  }

  /** What `GetMarketSubList` returns for the `resultMsg` text. */
  function MarketSubList(resultMsg: string): Result<seq<MarketSubListObject>, ParseFailure> {
    var parts := Split(resultMsg, '|');
    Collect(parts, |parts|, SubListStep)
  }

  /** `GetMarketSubList` after the request and the JSON decoding: the loop over the pieces. */
  method GetMarketSubList(resultMsg: string) returns (res: Result<seq<MarketSubListObject>, ParseFailure>)
    ensures res == MarketSubList(resultMsg)
  {
    var parts := Split(resultMsg, '|');
    var out: seq<MarketSubListObject> := [];
    for idx := 0 to |parts|
      invariant Collect(parts, idx, SubListStep) == Ok(out)
    {
      var rec := parts[idx];
      if rec == [] {
        CollectSkip(parts, idx, SubListStep, out);
        continue;
      }
      var fs := SplitN(rec, '-', 10);
      if |fs| != 10 {
        res := Err(WrongFormat(idx));
        CollectFail(parts, idx, SubListStep, out, res.error);
        return;
      }
      var itemID := ParseInt(fs[0]);
      if itemID.None? {
        res := Err(BadField(idx, ItemID));
        CollectFail(parts, idx, SubListStep, out, res.error);
        return;
      }
      var curr := ParseInt(fs[4]);
      if curr.None? {
        res := Err(BadField(idx, CurrentStock));
        CollectFail(parts, idx, SubListStep, out, res.error);
        return;
      }
      var total := ParseInt(fs[5]);
      if total.None? {
        res := Err(BadField(idx, TotalTrades));
        CollectFail(parts, idx, SubListStep, out, res.error);
        return;
      }
      var price := ParseInt(fs[8]);
      if price.None? {
        res := Err(BadField(idx, LastTradePrice));
        CollectFail(parts, idx, SubListStep, out, res.error);
        return;
      }
      var o := MarketSubListObject(itemID.value, curr.value, total.value, price.value);
      CollectKeep(parts, idx, SubListStep, out, o);
      out := out + [o];
    }
    return Ok(out);
  }

  /**
   * A record of ten fields, none but the last holding `-`, reads as the
   * object of its 1st, 5th, 6th and 9th fields when those parse; the other
   * six fields may hold anything else.
   */
  lemma SubListRecord(f: seq<string>, idx: nat)
    requires |f| == 10 && forall k :: 0 <= k < 9 ==> '-' !in f[k]
    requires ParseInt(f[0]).Some? && ParseInt(f[4]).Some? && ParseInt(f[5]).Some? && ParseInt(f[8]).Some?
    ensures SubListStep(Join(f, '-'), idx)
            == Keep(MarketSubListObject(ParseInt(f[0]).value, ParseInt(f[4]).value, ParseInt(f[5]).value, ParseInt(f[8]).value))
  {
    SplitNJoin(f, '-', 10);
    JoinNonEmpty(f, '-');
  }

  /** A record is rejected as malformed exactly when it has fewer than ten `-`-separated fields. */
  lemma SubListFieldCount(rec: string, idx: nat)
    requires rec != []
    ensures SubListStep(rec, idx) == Fail(WrongFormat(idx)) <==> |Split(rec, '-')| < 10
  {
    if |Split(rec, '-')| < 10 {
      SplitNFew(rec, '-', 10);
    } else {
      SplitNMany(rec, '-', 10);
    }
  }

  /** On success there is one object per non-empty piece, in the order of the pieces. */
  lemma SubListPieces(resultMsg: string)
    requires MarketSubList(resultMsg).Ok?
    ensures var parts := Split(resultMsg, '|');
            var out := MarketSubList(resultMsg).value;
            var ix := KeptIndices(parts, |parts|, SubListStep);
            && |out| == |ix|
            && (forall k :: 0 <= k < |out| ==> SubListStep(parts[ix[k]], ix[k]) == Keep(out[k]))
            && (forall i :: 0 <= i < |parts| ==> (i in ix <==> parts[i] != []))
  {
    var parts := Split(resultMsg, '|');
    CollectOk(parts, |parts|, SubListStep);
    KeptAt(parts, |parts|, SubListStep);
    var ix := KeptIndices(parts, |parts|, SubListStep);
    forall i | 0 <= i < |parts| ensures i in ix <==> parts[i] != [] {
      assert SubListStep(parts[i], i).Keep? <==> parts[i] != [];
    }
  }

  /** A `|` at the end of the text changes nothing. */
  lemma SubListTrailingBar(resultMsg: string)
    ensures MarketSubList(resultMsg + ['|']) == MarketSubList(resultMsg)
  {
    SplitSnoc(resultMsg, '|');
    CollectSnocSkip(Split(resultMsg, '|'), [], SubListStep);
  }

  // ---------------------------------------------------------------------
  // GetBiddingInfoList

  /**
   * One piece of `GetBiddingInfoList`: a piece that is empty or does not
   * split into exactly three fields is skipped without a word; a field that
   * does not parse stops the whole call, the error naming the main key.
   */
  function BiddingStep(mainkey: int, bid: string): Step<BiddingOrder> {
    if bid == [] then Skip
    else
      var fs := Split(bid, '-');
      if |fs| != 3 then Skip else BiddingFields(mainkey, fs)
  }

  /** The fields of a bid, in the order `GetBiddingInfoList` parses them. */
  const BiddingFieldNames: seq<Field> := [Price, Sale, Buy]

  /** The three fields of a bid, parsed in order; the first that fails is reported under the main key. */
  function BiddingFields(mainkey: int, fs: seq<string>): (r: Step<BiddingOrder>)
    requires |fs| == 3
    ensures !r.Skip? && (r.Fail? ==> r.error.BadField? && r.error.record == mainkey)
    ensures r.Keep? <==> forall k :: 0 <= k < 3 ==> ParseInt(fs[k]).Some?
  {
    var price := ParseInt(fs[0]);
    if price.None? then Fail(BadField(mainkey, Price))
    else
      var sale := ParseInt(fs[1]);
      if sale.None? then Fail(BadField(mainkey, Sale))
      else
        var buy := ParseInt(fs[2]);
        if buy.None? then Fail(BadField(mainkey, Buy))
        else Keep(BiddingOrder(price.value, sale.value, buy.value))
  }

  /** A failure names the first field, in parsing order, that does not parse. */
  lemma BiddingFieldsNamesField(mainkey: int, fs: seq<string>, k: nat)
    requires |fs| == 3 && k < 3 && ParseInt(fs[k]).None?
    requires forall j :: 0 <= j < k ==> ParseInt(fs[j]).Some?
    ensures BiddingFields(mainkey, fs) == Fail(BadField(mainkey, BiddingFieldNames[k]))
  {
  }

  /** The bidding step for one main key, as the loop applies it. */
  function BiddingStepFor(mainkey: int): (string, nat) -> Step<BiddingOrder> {
    (bid, idx) => BiddingStep(mainkey, bid)
  }

  /** The orders `GetBiddingInfoList` collects from the raw text. */
  function BiddingOrders(mainkey: int, raw: string): Result<seq<BiddingOrder>, ParseFailure> {
    var parts := Split(raw, '|');
    Collect(parts, |parts|, BiddingStepFor(mainkey))
  }

  /** The lowest price among the first n orders with a positive sale count, below the int64 maximum it starts from. */
  function MinSaleUpTo(orders: seq<BiddingOrder>, n: nat): int64
    requires n <= |orders|
  {
    if n == 0 then MaxInt64
    else
      var m := MinSaleUpTo(orders, n - 1);
      var o := orders[n - 1];
      if o.sale > 0 && o.price < m then o.price else m
  }

  /** The highest price among the first n orders with a positive buy count, above the zero it starts from. */
  function MaxBuyUpTo(orders: seq<BiddingOrder>, n: nat): int64
    requires n <= |orders|
  {
    if n == 0 then 0
    else
      var m := MaxBuyUpTo(orders, n - 1);
      var o := orders[n - 1];
      if o.buy > 0 && o.price > m then o.price else m
  }

  /** The lowest sale price (0 when the search found none) and the highest buy price. */
  function BestPrices(orders: seq<BiddingOrder>): (int64, int64) {
    var m := MinSaleUpTo(orders, |orders|);
    (if m == MaxInt64 then 0 else m, MaxBuyUpTo(orders, |orders|))
  }

  /** What `GetBiddingInfoList` returns for the raw text; Go's (-1, -1) on error is the Err case. */
  function BiddingInfo(mainkey: int, raw: string): Result<(int64, int64), ParseFailure> {
    var orders :- BiddingOrders(mainkey, raw);
    Ok(BestPrices(orders))
  }

  /** `GetBiddingInfoList` after the request: collect the orders, then scan them for the best prices. */
  method GetBiddingInfoList(mainkey: int, raw: string) returns (res: Result<(int64, int64), ParseFailure>)
    ensures res == BiddingInfo(mainkey, raw)
  {
    var parts := Split(raw, '|');
    var orders: seq<BiddingOrder> := [];
    for i := 0 to |parts|
      invariant Collect(parts, i, BiddingStepFor(mainkey)) == Ok(orders)
    {
      var bid := parts[i];
      if bid == [] {
        CollectSkip(parts, i, BiddingStepFor(mainkey), orders);
        continue;
      }
      var fs := Split(bid, '-');
      if |fs| != 3 {
        CollectSkip(parts, i, BiddingStepFor(mainkey), orders);
        continue;
      }
      var price := ParseInt(fs[0]);
      if price.None? {
        res := Err(BadField(mainkey, Price));
        BiddingFailStops(mainkey, raw, i, orders, res.error);
        return;
      }
      var sale := ParseInt(fs[1]);
      if sale.None? {
        res := Err(BadField(mainkey, Sale));
        BiddingFailStops(mainkey, raw, i, orders, res.error);
        return;
      }
      var buy := ParseInt(fs[2]);
      if buy.None? {
        res := Err(BadField(mainkey, Buy));
        BiddingFailStops(mainkey, raw, i, orders, res.error);
        return;
      }
      var o := BiddingOrder(price.value, sale.value, buy.value);
      CollectKeep(parts, i, BiddingStepFor(mainkey), orders, o);
      orders := orders + [o];
    }
    var minSale: int64 := MaxInt64;
    var maxBuy: int64 := 0;
    for k := 0 to |orders|
      invariant minSale == MinSaleUpTo(orders, k) && maxBuy == MaxBuyUpTo(orders, k)
    {
      var o := orders[k];
      if o.sale > 0 && o.price < minSale {
        minSale := o.price;
      }
      if o.buy > 0 && o.price > maxBuy {
        maxBuy := o.price;
      }
    }
    if minSale == MaxInt64 {
      minSale := 0;
    }
    BiddingDone(mainkey, raw, orders);
    return Ok((minSale, maxBuy));
  }

  /** A bid whose field fails to parse ends the whole call with its error. */
  lemma BiddingFailStops(mainkey: int, raw: string, i: nat, orders: seq<BiddingOrder>, e: ParseFailure)
    requires i < |Split(raw, '|')| && Collect(Split(raw, '|'), i, BiddingStepFor(mainkey)) == Ok(orders)
    requires BiddingStep(mainkey, Split(raw, '|')[i]) == Fail(e)
    ensures BiddingInfo(mainkey, raw) == Err(e)
  {
    CollectFail(Split(raw, '|'), i, BiddingStepFor(mainkey), orders, e);
  }

  /** Once every piece is read, the call's result is the scan of the orders collected. */
  lemma BiddingDone(mainkey: int, raw: string, orders: seq<BiddingOrder>)
    requires Collect(Split(raw, '|'), |Split(raw, '|')|, BiddingStepFor(mainkey)) == Ok(orders)
    ensures BiddingInfo(mainkey, raw) == Ok(BestPrices(orders))
  {
  }

  /** Splitting two texts joined by a separator gives the pieces of each, one after the other. */
  lemma {:induction false} SplitAppend(a: string, c: char, b: string)
    ensures Split(a + [c] + b, c) == Split(a, c) + Split(b, c)
    decreases |a|, 1
  {
    if c !in a {
      SplitNone(a, c, 1);
      SplitCons(a, c, b);
    } else {
      SplitAppendStep(a, c, b);
    }
  }

  lemma {:induction false} SplitAppendStep(a: string, c: char, b: string)
    requires c in a
    ensures Split(a + [c] + b, c) == Split(a, c) + Split(b, c)
    decreases |a|, 0
  {
    var i := IndexOf(a, c);
    var x, r := a[..i], a[i + 1..];
    var pa, pr, pb := Split(a, c), Split(r, c), Split(b, c);
    IndexOfFirst(a, c);
    assert forall k :: 0 <= k < i ==> x[k] == a[k];
    SplitStep(a, c);
    assert a + [c] + b == x + [c] + (r + [c] + b);
    SplitCons(x, c, r + [c] + b);
    SplitAppend(r, c, b);
    ConcatAssoc([x], pr, pb);
  }

  lemma ConcatAssoc<T>(x: seq<T>, y: seq<T>, z: seq<T>)
    ensures x + (y + z) == x + y + z
  {
  }

  /** The record text of one order. */
  function BiddingRecord(o: BiddingOrder): string {
    Join([FormatInt(o.price), FormatInt(o.sale), FormatInt(o.buy)], '-')
  }

  lemma JoinThree(a: string, b: string, c: string, sep: char)
    ensures Join([a, b, c], sep) == a + [sep] + (b + [sep] + c)
  {
    assert [a, b, c][1..] == [b, c];
    assert [b, c][1..] == [c];
    assert Join([b, c], sep) == b + [sep] + c;
  }

  /** An order with no negative field reads back as itself. */
  lemma BiddingRecordRoundTrip(mainkey: int, o: BiddingOrder)
    requires o.price >= 0 && o.sale >= 0 && o.buy >= 0
    ensures BiddingStep(mainkey, BiddingRecord(o)) == Keep(o)
  {
    var fs := [FormatInt(o.price), FormatInt(o.sale), FormatInt(o.buy)];
    FormatIntChars(o.price);
    FormatIntChars(o.sale);
    FormatIntChars(o.buy);
    SplitJoin(fs, '-');
    JoinNonEmpty(fs, '-');
    ParseFormat(o.price);
    ParseFormat(o.sale);
    ParseFormat(o.buy);
  }

  /**
   * An order with a negative field is dropped without an error: the minus
   * sign is one more `-`, so the record no longer splits into three fields.
   */
  lemma BiddingNegativeSkipped(mainkey: int, o: BiddingOrder)
    requires o.price < 0 || o.sale < 0 || o.buy < 0
    ensures BiddingStep(mainkey, BiddingRecord(o)) == Skip
  {
    var p, q, r := FormatInt(o.price), FormatInt(o.sale), FormatInt(o.buy);
    JoinThree(p, q, r, '-');
    SplitAppend(p, '-', q + ['-'] + r);
    SplitAppend(q, '-', r);
    FormatIntChars(o.price);
    FormatIntChars(o.sale);
    FormatIntChars(o.buy);
    SplitLength(p, '-');
    SplitLength(q, '-');
    SplitLength(r, '-');
  }

  /** The text of a list of orders. */
  function BiddingText(os: seq<BiddingOrder>): string {
    Lines(seq(|os|, k requires 0 <= k < |os| => BiddingRecord(os[k])))
  }

  lemma BiddingRecordNoBar(o: BiddingOrder)
    ensures '|' !in BiddingRecord(o)
  {
    FormatIntChars(o.price);
    FormatIntChars(o.sale);
    FormatIntChars(o.buy);
    JoinAvoids([FormatInt(o.price), FormatInt(o.sale), FormatInt(o.buy)], '-', '|');
  }

  /** Orders with no negative field, written as text, are read back and scanned as they are. */
  lemma BiddingInfoRoundTrip(mainkey: int, os: seq<BiddingOrder>)
    requires forall k :: 0 <= k < |os| ==> os[k].price >= 0 && os[k].sale >= 0 && os[k].buy >= 0
    ensures BiddingOrders(mainkey, BiddingText(os)) == Ok(os)
    ensures BiddingInfo(mainkey, BiddingText(os)) == Ok(BestPrices(os))
  {
    var recs := seq(|os|, k requires 0 <= k < |os| => BiddingRecord(os[k]));
    var step := BiddingStepFor(mainkey);
    forall k | 0 <= k < |os| ensures '|' !in recs[k] && step(recs[k], k) == Keep(os[k]) {
      BiddingRecordNoBar(os[k]);
      BiddingRecordRoundTrip(mainkey, os[k]);
    }
    LinesSplit(recs);
    CollectAllKept(recs, os, |os|, step);
    assert os[..|os|] == os;
    CollectSnocSkip(recs, [], step);
  }

  /**
   * On success there is one order per piece that splits into exactly three
   * fields, in the order of the pieces; all other pieces are dropped.
   */
  lemma BiddingPieces(mainkey: int, raw: string)
    requires BiddingOrders(mainkey, raw).Ok?
    ensures var parts := Split(raw, '|');
            var out := BiddingOrders(mainkey, raw).value;
            var ix := KeptIndices(parts, |parts|, BiddingStepFor(mainkey));
            && |out| == |ix|
            && (forall k :: 0 <= k < |out| ==> BiddingStep(mainkey, parts[ix[k]]) == Keep(out[k]))
            && (forall i :: 0 <= i < |parts| ==> (i in ix <==> parts[i] != [] && |Split(parts[i], '-')| == 3))
  {
    var parts := Split(raw, '|');
    var step := BiddingStepFor(mainkey);
    CollectOk(parts, |parts|, step);
    KeptAt(parts, |parts|, step);
    var ix := KeptIndices(parts, |parts|, step);
    forall i | 0 <= i < |parts| ensures i in ix <==> parts[i] != [] && |Split(parts[i], '-')| == 3 {
      assert !step(parts[i], i).Fail?;
      assert step(parts[i], i).Keep? <==> parts[i] != [] && |Split(parts[i], '-')| == 3;
    }
  }

  /** A `|` at the end of the text changes nothing. */
  lemma BiddingTrailingBar(mainkey: int, raw: string)
    ensures BiddingInfo(mainkey, raw + ['|']) == BiddingInfo(mainkey, raw)
  {
    SplitSnoc(raw, '|');
    CollectSnocSkip(Split(raw, '|'), [], BiddingStepFor(mainkey));
  }

  // ---------------------------------------------------------------------
  // What the best prices mean

  predicate IsSeller(o: BiddingOrder) {
    o.sale > 0
  }

  predicate IsBuyer(o: BiddingOrder) {
    o.buy > 0
  }

  /** p is the price of a selling order and no selling order is cheaper. */
  predicate IsLowestSale(orders: seq<BiddingOrder>, p: int) {
    && (exists k :: 0 <= k < |orders| && IsSeller(orders[k]) && orders[k].price == p)
    && (forall k :: 0 <= k < |orders| && IsSeller(orders[k]) ==> p <= orders[k].price)
  }

  /** p is at least 0 and every buying order's price, and is 0 or the price of a buying order. */
  predicate IsHighestBuyOrZero(orders: seq<BiddingOrder>, p: int) {
    && p >= 0
    && (forall k :: 0 <= k < |orders| && IsBuyer(orders[k]) ==> orders[k].price <= p)
    && (p == 0 || exists k :: 0 <= k < |orders| && IsBuyer(orders[k]) && orders[k].price == p)
  }

  /** The running minimum is at most every selling price seen and is one of them, unless still the start value. */
  lemma {:induction false} MinSaleUpToSpec(orders: seq<BiddingOrder>, n: nat)
    requires n <= |orders|
    ensures forall k :: 0 <= k < n && IsSeller(orders[k]) ==> MinSaleUpTo(orders, n) <= orders[k].price
    ensures MinSaleUpTo(orders, n) == MaxInt64
            || exists k :: 0 <= k < n && IsSeller(orders[k]) && orders[k].price == MinSaleUpTo(orders, n)
  {
    if n > 0 {
      MinSaleUpToSpec(orders, n - 1);
    }
  }

  /** The running maximum is at least 0 and every buying price seen, and is one of them unless still 0. */
  lemma {:induction false} MaxBuyUpToSpec(orders: seq<BiddingOrder>, n: nat)
    requires n <= |orders|
    ensures IsHighestBuyOrZero(orders[..n], MaxBuyUpTo(orders, n))
  {
    if n > 0 {
      MaxBuyUpToSpec(orders, n - 1);
      var m := MaxBuyUpTo(orders, n - 1);
      assert forall k :: 0 <= k < n - 1 ==> orders[..n][k] == orders[..n - 1][k];
      if m != 0 {
        var k :| 0 <= k < n - 1 && IsBuyer(orders[..n - 1][k]) && orders[..n - 1][k].price == m;
        assert orders[..n][k] == orders[..n - 1][k];
      }
      assert orders[..n][n - 1] == orders[n - 1];
    }
  }

  /**
   * What `GetBiddingInfoList` reports: the lowest selling price when some
   * selling order is priced below the int64 maximum and 0 when none is, and
   * the highest buying price or 0.
   */
  lemma BestPricesMeaning(orders: seq<BiddingOrder>)
    ensures (exists k :: 0 <= k < |orders| && IsSeller(orders[k]) && orders[k].price < MaxInt64)
            ==> IsLowestSale(orders, BestPrices(orders).0)
    ensures (forall k :: 0 <= k < |orders| && IsSeller(orders[k]) ==> orders[k].price == MaxInt64)
            ==> BestPrices(orders).0 == 0
    ensures IsHighestBuyOrZero(orders, BestPrices(orders).1)
  {
    MinSaleUpToSpec(orders, |orders|);
    MaxBuyUpToSpec(orders, |orders|);
    assert orders[..|orders|] == orders;
  }

  /** The scan does not depend on the order of the orders. */
  lemma BestPricesOrderFree(a: seq<BiddingOrder>, b: seq<BiddingOrder>)
    requires multiset(a) == multiset(b)
    ensures BestPrices(a) == BestPrices(b)
  {
    MinSaleBelow(a, b);
    MinSaleBelow(b, a);
    MaxBuyAbove(a, b);
    MaxBuyAbove(b, a);
  }

  lemma MinSaleBelow(a: seq<BiddingOrder>, b: seq<BiddingOrder>)
    requires multiset(a) == multiset(b)
    ensures MinSaleUpTo(a, |a|) <= MinSaleUpTo(b, |b|)
  {
    MinSaleUpToSpec(a, |a|);
    MinSaleUpToSpec(b, |b|);
    var mb := MinSaleUpTo(b, |b|);
    if mb != MaxInt64 {
      var k :| 0 <= k < |b| && IsSeller(b[k]) && b[k].price == mb;
      assert b[k] in multiset(a);
      var j :| 0 <= j < |a| && a[j] == b[k];
    }
  }

  lemma MaxBuyAbove(a: seq<BiddingOrder>, b: seq<BiddingOrder>)
    requires multiset(a) == multiset(b)
    ensures MaxBuyUpTo(a, |a|) >= MaxBuyUpTo(b, |b|)
  {
    MaxBuyUpToSpec(a, |a|);
    MaxBuyUpToSpec(b, |b|);
    assert a[..|a|] == a && b[..|b|] == b;
    var mb := MaxBuyUpTo(b, |b|);
    if mb != 0 {
      var k :| 0 <= k < |b| && IsBuyer(b[k]) && b[k].price == mb;
      assert b[k] in multiset(a);
      var j :| 0 <= j < |a| && a[j] == b[k];
    }
  }

  // ---------------------------------------------------------------------
  // The start value of the minimum doubles as "no seller"

  /** A single selling order priced at the int64 maximum is reported as no seller at all. */
  lemma SentinelHidesSeller()
    ensures var orders := [BiddingOrder(MaxInt64, 1, 0)];
            IsSeller(orders[0]) && BestPrices(orders) == (0, 0)
  {
    var orders := [BiddingOrder(MaxInt64, 1, 0)];
    assert MinSaleUpTo(orders, 0) == MaxInt64 && MaxBuyUpTo(orders, 0) == 0;
    assert MinSaleUpTo(orders, 1) == MaxInt64 && MaxBuyUpTo(orders, 1) == 0;
  }

  /** The lowest selling price among the first n orders, or None when there is no selling order. */
  function LowestSale(orders: seq<BiddingOrder>, n: nat): Option<int64>
    requires n <= |orders|
  {
    if n == 0 then None
    else
      var m := LowestSale(orders, n - 1);
      var o := orders[n - 1];
      if !IsSeller(o) then m
      else if m.None? || o.price < m.value then Some(o.price)
      else m
  }

  /**
   * The best prices with "no seller" kept apart from every price: the
   * selling side is None when there is no selling order, so neither 0 nor
   * the int64 maximum stands for it.
   */
  function BestPricesChecked(orders: seq<BiddingOrder>): (Option<int64>, int64) {
    (LowestSale(orders, |orders|), MaxBuyUpTo(orders, |orders|))
  }

  lemma {:induction false} LowestSaleSpec(orders: seq<BiddingOrder>, n: nat)
    requires n <= |orders|
    ensures LowestSale(orders, n).None? <==> forall k :: 0 <= k < n ==> !IsSeller(orders[k])
    ensures LowestSale(orders, n).Some? ==> IsLowestSale(orders[..n], LowestSale(orders, n).value)
  {
    if n > 0 {
      LowestSaleSpec(orders, n - 1);
      var m := LowestSale(orders, n - 1);
      assert forall k :: 0 <= k < n - 1 ==> orders[..n][k] == orders[..n - 1][k];
      assert orders[..n][n - 1] == orders[n - 1];
      if m.Some? {
        var k :| 0 <= k < n - 1 && IsSeller(orders[..n - 1][k]) && orders[..n - 1][k].price == m.value;
        assert orders[..n][k] == orders[..n - 1][k];
      }
    }
  }

  /**
   * The corrected scan reports no selling price exactly when there is no
   * selling order, and otherwise the lowest selling price, whatever it is.
   */
  lemma BestPricesCheckedMeaning(orders: seq<BiddingOrder>)
    ensures BestPricesChecked(orders).0.None? <==> forall k :: 0 <= k < |orders| ==> !IsSeller(orders[k])
    ensures BestPricesChecked(orders).0.Some? ==> IsLowestSale(orders, BestPricesChecked(orders).0.value)
    ensures IsHighestBuyOrZero(orders, BestPricesChecked(orders).1)
  {
    LowestSaleSpec(orders, |orders|);
    MaxBuyUpToSpec(orders, |orders|);
    assert orders[..|orders|] == orders;
  }

  /**
   * The two prices that `GetBiddingInfoList` cannot tell from "no seller" (0,
   * and the int64 maximum) are both reported by the corrected scan.
   */
  lemma CheckedKeepsSellerApart()
    ensures BestPricesChecked([]).0 == None
    ensures BestPricesChecked([BiddingOrder(0, 1, 0)]).0 == Some(0)
    ensures BestPricesChecked([BiddingOrder(MaxInt64, 1, 0)]).0 == Some(MaxInt64)
    ensures BestPrices([BiddingOrder(0, 1, 0)]).0 == BestPrices([]).0 == 0
  {
    var zero, top := [BiddingOrder(0, 1, 0)], [BiddingOrder(MaxInt64, 1, 0)];
    assert LowestSale(zero, 0) == None && LowestSale(zero, 1) == Some(0);
    assert LowestSale(top, 0) == None && LowestSale(top, 1) == Some(MaxInt64);
    assert MinSaleUpTo(zero, 0) == MaxInt64 && MinSaleUpTo(zero, 1) == 0;
  }

  /**
   * Both scans agree unless a selling order is priced at the int64 maximum,
   * once the corrected scan's None is read as the 0 that `GetBiddingInfoList`
   * reports for no seller.
   */
  lemma BestPricesAgree(orders: seq<BiddingOrder>)
    requires forall k :: 0 <= k < |orders| && IsSeller(orders[k]) ==> orders[k].price < MaxInt64
    ensures BestPrices(orders).0 == (if BestPricesChecked(orders).0.Some? then BestPricesChecked(orders).0.value else 0)
    ensures BestPrices(orders).1 == BestPricesChecked(orders).1
  {
    BestPricesMeaning(orders);
    BestPricesCheckedMeaning(orders);
    if exists k :: 0 <= k < |orders| && IsSeller(orders[k]) {
      var p, q := BestPricesChecked(orders).0.value, BestPrices(orders).0;
      var i :| 0 <= i < |orders| && IsSeller(orders[i]) && orders[i].price == p;
      var j :| 0 <= j < |orders| && IsSeller(orders[j]) && orders[j].price == q;
    }
  }
}
