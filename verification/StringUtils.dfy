/** The string helpers behind every text reply: `split`, `split_first`, `split_to_ints`, both
    `split_at` and `join`.  The functions are the specifications, the methods the loops. */
module StringUtils {
  import opened Options
  import Decimal

  /** `d` stands in `s` at position `i`. */
  predicate At(s: string, d: string, i: int) {
    0 <= i && i + |d| <= |s| && s[i..i + |d|] == d
  }

  /** `std::string::find` from the start. */
  function Find(s: string, d: string): (r: int)
    requires d != []
    ensures r == -1 || At(s, d, r)
  {
    if |s| < |d| then -1
    else if s[..|d|] == d then 0
    else
      var r := Find(s[1..], d);
      if r == -1 then -1 else r + 1
  }

  /** `find(delim, start)`. */
  function FindFrom(s: string, d: string, start: nat): int
    requires d != [] && start <= |s|
  {
    var r := Find(s[start..], d);
    if r == -1 then -1 else start + r
  }

  function Split(s: string, d: string): (pieces: seq<string>)
    requires d != []
    ensures pieces != []
    decreases |s|
  {
    var end := Find(s, d);
    if end == -1 then [s] else [s[..end]] + Split(s[end + |d|..], d)
  }

  function SplitFirst(s: string, d: string): (string, string)
    requires d != []
  {
    if s == [] then ([], [])
    else
      var end := Find(s, d);
      if end == -1 then (s, []) else (s[..end], s[end + |d|..])
  }

  /** A vector of `size_t`: a negative `int` becomes a huge value. */
  function ToSize(n: int): int {
    n % 0x1_0000_0000_0000_0000
  }

  /** A `size_t` stored in an `int`. */
  function ToInt(n: int): int {
    var m := n % 0x1_0000_0000;
    if m < 0x8000_0000 then m else m - 0x1_0000_0000
  }

  /** Both conversions keep the value modulo the width of the type they give. */
  lemma {:induction false} Conversions(n: int)
    ensures -2_147_483_648 <= ToInt(n) <= 2_147_483_647 && (n - ToInt(n)) % 4_294_967_296 == 0
    ensures 0 <= ToSize(n) <= 18_446_744_073_709_551_615 && (n - ToSize(n)) % 18_446_744_073_709_551_616 == 0
  {
  }

  function Ints(pieces: seq<string>): Option<seq<int>> {
    if pieces == [] then Some([])
    else
      match (Decimal.Stoi(pieces[0]), Ints(pieces[1..]))
      case (Some(n), Some(rest)) => Some([ToSize(n)] + rest)
      case _ => None
  }

  /** A piece that is not a number empties the whole result. */
  function SplitToInts(s: string, d: string): seq<int>
    requires d != []
  {
    match Ints(Split(s, d))
    case Some(ns) => ns
    case None => []
  }

  /** `substr`; both arguments are converted to `size_t`, and a start past the end throws. */
  function Substr(s: string, start: int, len: int): Option<string> {
    if start < 0 || start > |s| then None
    else Some(if len < 0 || start + len > |s| then s[start..] else s[start..start + len])
  }

  function SplitAtPos(s: string, pos: int): Option<(string, string)> {
    match Substr(s, 0, pos)
    case None => None
    case Some(a) =>
      match Substr(s, pos, |s|)
      case None => None
      case Some(b) => Some((a, b))
  }

  /** The pieces between consecutive positions; `None` is an exception. */
  function SplitAt(s: string, pos: seq<int>): Option<seq<string>> {
    if pos == [] then None // the loop bound wraps around and pos.at(0) throws
    else if |pos| == 1 then Some([])
    else
      match Substr(s, ToInt(pos[0]), ToInt(pos[1] - pos[0]))
      case None => None
      case Some(piece) =>
        match SplitAt(s, pos[1..])
        case None => None
        case Some(rest) => Some([piece] + rest)
  }

  /** Every piece followed by the delimiter. */
  function Terminated(pieces: seq<string>, d: string): string {
    if pieces == [] then [] else pieces[0] + d + Terminated(pieces[1..], d)
  }

  /** `join`: the terminated pieces without their last character, which goes if there is a
      delimiter. */
  function Join(pieces: seq<string>, d: string): string
    requires pieces != [] || d == []
  {
    var t := Terminated(pieces, d);
    if d == [] then t
    else
      assert t != [];
      t[..|t| - 1]
  }

  /** `Find` gives the least position where the delimiter stands, and -1 only when there is none. */
  lemma {:induction false} FindLeast(s: string, d: string, i: int)
    requires d != [] && At(s, d, i)
    ensures 0 <= Find(s, d) <= i
    decreases |s|
  {
    if s[..|d|] != d {
      assert i > 0 && s[1..][i - 1..i - 1 + |d|] == s[i..i + |d|];
      FindLeast(s[1..], d, i - 1);
    }
  }

  lemma {:induction false} FindChar(a: string, c: char, b: string)
    requires c !in a
    ensures Find(a + [c] + b, [c]) == |a|
  {
    var s := a + [c] + b;
    assert s[|a|..|a| + 1] == [c];
    FindLeast(s, [c], |a|);
    assert s[Find(s, [c])..Find(s, [c]) + 1][0] == c;
  }

  lemma {:induction false} FindNone(a: string, c: char)
    ensures Find(a, [c]) == -1 <==> c !in a
  {
    if a != [] {
      FindNone(a[1..], c);
      assert a == [a[0]] + a[1..];
      assert a[..1] == [c] <==> a[0] == c;
    }
  }

  /** Before the least occurrence there is none. */
  lemma {:induction false} FindSplits(a: string, c: char)
    requires Find(a, [c]) != -1
    ensures var end := Find(a, [c]);
            c !in a[..end] && a == a[..end] + [c] + a[end + 1..]
  {
    var end := Find(a, [c]);
    assert a[end..end + 1] == [c];
    if a[..1] != [c] {
      FindSplits(a[1..], c);
      assert a[..end] == [a[0]] + a[1..][..end - 1];
      assert a[0] != c;
    }
  }

  /** A first piece without the delimiter comes off whole. */
  lemma SplitCons(a: string, c: char, b: string)
    requires c !in a
    ensures Split(a + [c] + b, [c]) == [a] + Split(b, [c])
    ensures SplitFirst(a + [c] + b, [c]) == (a, b)
  {
    var s := a + [c] + b;
    FindChar(a, c, b);
    assert s[..|a|] == a && s[|a| + 1..] == b;
  }

  lemma SplitNone(a: string, c: char)
    requires c !in a
    ensures Split(a, [c]) == [a]
    ensures SplitFirst(a, [c]) == (a, [])
  {
    FindNone(a, c);
  }

  lemma Regroup<T>(a: seq<T>, b: seq<T>, c: seq<T>)
    ensures (a + b) + c == a + (b + c)
  {
  }

  lemma SplitSnocStep(first: string, rest: string, c: char, b: string)
    requires c !in first && Split(rest + [c] + b, [c]) == Split(rest, [c]) + [b]
    ensures Split(first + [c] + rest + [c] + b, [c]) == Split(first + [c] + rest, [c]) + [b]
  {
    hide Split, SplitFirst;
    SplitCons(first, c, rest);
    SplitCons(first, c, rest + [c] + b);
    Regroup(first + [c], rest, [c]);
    Regroup(first + [c], rest + [c], b);
    Regroup([first], Split(rest, [c]), [b]);
  }

  /** A last piece without the delimiter comes off whole. */
  lemma {:induction false} SplitSnoc(a: string, c: char, b: string)
    requires c !in b
    ensures Split(a + [c] + b, [c]) == Split(a, [c]) + [b]
    decreases |a|
  {
    FindNone(a, c);
    var end := Find(a, [c]);
    hide Split, SplitFirst;
    if end == -1 {
      SplitCons(a, c, b);
      SplitNone(a, c);
      SplitNone(b, c);
    } else {
      FindSplits(a, c);
      hide Find, At;
      SplitSnoc(a[end + 1..], c, b);
      SplitSnocStep(a[..end], a[end + 1..], c, b);
    }
  }

  lemma TerminatedCons(piece: string, rest: seq<string>, d: string)
    ensures Terminated([piece] + rest, d) == piece + d + Terminated(rest, d)
  {
    assert ([piece] + rest)[1..] == rest;
  }

  lemma TerminatedNil(d: string)
    ensures Terminated([], d) == []
  {
  }

  lemma Glue(s: string, d: string, end: nat)
    requires At(s, d, end)
    ensures s[..end] + d + (s[end + |d|..] + d) == s + d
  {
    assert s == s[..end] + s[end..end + |d|] + s[end + |d|..];
  }

  lemma {:induction false} SplitTerminated(s: string, d: string)
    requires d != []
    ensures Terminated(Split(s, d), d) == s + d
    decreases |s|
  {
    hide Find, Terminated;
    var end := Find(s, d);
    if end == -1 {
      assert Terminated([], d) == [] by { TerminatedNil(d); }
      TerminatedCons(s, [], d);
      assert [s] + [] == [s];
    } else {
      var rest := Split(s[end + |d|..], d);
      SplitTerminated(s[end + |d|..], d);
      assert Split(s, d) == [s[..end]] + rest;
      TerminatedCons(s[..end], rest, d);
      Glue(s, d, end);
    }
  }

  /** `join` undoes `split` on every string exactly when the delimiter is one character; a longer
      delimiter loses only its last character of the one appended after the last piece. */
  lemma JoinSplit(s: string, d: string)
    requires d != []
    ensures Join(Split(s, d), d) == s + d[..|d| - 1]
    ensures Join(Split(s, d), d) == s <==> |d| == 1
  {
    SplitTerminated(s, d);
    assert (s + d)[..|s + d| - 1] == s + d[..|d| - 1];
    if |d| == 1 {
      assert s + d[..0] == s;
    } else {
      assert |s + d[..|d| - 1]| > |s|;
    }
  }

  lemma {:induction false} TerminatedNonEmpty(pieces: seq<string>, d: string)
    requires pieces != [] && d != []
    ensures Terminated(pieces, d) != []
  {
  }

  /** `split` undoes `join` on every non-empty list of pieces without the delimiter. */
  lemma {:induction false} SplitJoin(pieces: seq<string>, c: char)
    requires pieces != [] && forall i :: 0 <= i < |pieces| ==> c !in pieces[i]
    ensures Split(Join(pieces, [c]), [c]) == pieces
    decreases |pieces|
  {
    var rest := pieces[1..];
    if rest == [] {
      assert Terminated(pieces, [c]) == pieces[0] + [c] + Terminated([], [c]);
      assert Join(pieces, [c]) == pieces[0];
      SplitNone(pieces[0], c);
    } else {
      SplitJoin(rest, c);
      assert Join(pieces, [c]) == pieces[0] + [c] + Join(rest, [c]);
      SplitCons(pieces[0], c, Join(rest, [c]));
    }
  }

  lemma IntsOne(piece: string)
    requires Decimal.Stoi(piece).Some?
    ensures Ints([piece]) == Some([ToSize(Decimal.Stoi(piece).value)])
  {
    hide Decimal.Stoi, ToSize;
    var n := ToSize(Decimal.Stoi(piece).value);
    assert [piece][1..] == [];
    assert Ints([]) == Some([]);
    assert [n] + [] == [n];
  }

  /** No piece holds the delimiter, nor a character the string does not hold. */
  lemma {:induction false} SplitPieces(s: string, c: char, x: char)
    requires x !in s || x == c
    ensures forall i :: 0 <= i < |Split(s, [c])| ==> x !in Split(s, [c])[i]
    decreases |s|
  {
    FindNone(s, c);
    SplitUnfolds(s, [c]);
    var end := Find(s, [c]);
    hide Split;
    if end != -1 {
      FindSplits(s, c);
      hide Find, At;
      SplitPieces(s[end + 1..], c, x);
      var rest := Split(s[end + 1..], [c]);
      assert forall i :: 0 < i < 1 + |rest| ==> Split(s, [c])[i] == rest[i - 1];
    }
  }

  lemma {:induction false} IntsSnoc(pieces: seq<string>, last: string)
    requires Ints(pieces).Some? && Decimal.Stoi(last).Some?
    ensures Ints(pieces + [last]) == Some(Ints(pieces).value + [ToSize(Decimal.Stoi(last).value)])
  {
    hide Decimal.Stoi;
    if pieces == [] {
      assert pieces + [last] == [last];
      IntsOne(last);
      var n := ToSize(Decimal.Stoi(last).value);
      assert Ints(pieces).value + [n] == [n];
    } else {
      IntsSnoc(pieces[1..], last);
      assert (pieces + [last])[1..] == pieces[1..] + [last];
      var head, rest := [ToSize(Decimal.Stoi(pieces[0]).value)], Ints(pieces[1..]).value;
      var end := [ToSize(Decimal.Stoi(last).value)];
      assert head + (rest + end) == head + rest + end;
    }
  }

  lemma SmallInt(n: int)
    requires 0 <= n <= Decimal.INT_MAX
    ensures ToInt(n) == n && ToSize(n) == n
  {
  }

  /** Ordered positions inside the string cut it into the slices between them. */
  lemma {:induction false} SplitAtSlices(s: string, pos: seq<int>)
    requires pos != [] && |s| <= Decimal.INT_MAX
    requires forall i :: 0 <= i < |pos| ==> 0 <= pos[i] <= |s|
    requires forall i, j :: 0 <= i < j < |pos| ==> pos[i] <= pos[j]
    ensures SplitAt(s, pos).Some?
    ensures |SplitAt(s, pos).value| == |pos| - 1
    ensures forall i, j :: 0 <= i < j < |pos| && j == i + 1 ==> SplitAt(s, pos).value[i] == s[pos[i]..pos[j]]
    decreases |pos|
  {
    hide ToInt;
    if |pos| > 1 {
      var rest := pos[1..];
      SplitAtSlices(s, rest);
      SmallInt(pos[0]);
      SmallInt(pos[1] - pos[0]);
      assert Substr(s, pos[0], pos[1] - pos[0]) == Some(s[pos[0]..pos[1]]);
      forall i, j | 0 <= i < j < |pos| && j == i + 1
        ensures SplitAt(s, pos).value[i] == s[pos[i]..pos[j]]
      {
        if i > 0 {
          assert pos[i] == rest[i - 1] && pos[j] == rest[j - 1];
          assert SplitAt(s, pos).value[i] == SplitAt(s, rest).value[i - 1];
        }
      }
    }
  }

  // ----- The loops

  /** One round of the loop: the piece before the next delimiter, or the last piece. */
  lemma SplitNext(s: string, d: string, start: nat)
    requires d != [] && start <= |s|
    ensures var end := FindFrom(s, d, start);
            if end == -1 then Split(s[start..], d) == [s[start..]]
            else start <= end <= |s| - |d| && Split(s[start..], d) == [s[start..end]] + Split(s[end + |d|..], d)
  {
    hide Find, Split;
    SplitUnfolds(s[start..], d);
    var end := FindFrom(s, d, start);
    if end != -1 {
      assert s[start..][..end - start] == s[start..end];
      assert s[start..][end - start + |d|..] == s[end + |d|..];
    }
  }

  lemma SplitUnfolds(s: string, d: string)
    requires d != []
    ensures var end := Find(s, d);
            if end == -1 then Split(s, d) == [s]
            else 0 <= end <= |s| - |d| && Split(s, d) == [s[..end]] + Split(s[end + |d|..], d)
  {
    hide Find;
  }

  method SplitLoop(s: string, d: string) returns (result: seq<string>)
    requires d != []
    ensures result == Split(s, d)
  {
    hide Find, FindFrom, Split;
    var start, end := 0, FindFrom(s, d, 0);
    result := [];
    assert s[0..] == s;
    SplitNext(s, d, 0);
    while end != -1
      invariant 0 <= start <= |s| && end == FindFrom(s, d, start)
      invariant end == -1 || start <= end <= |s| - |d|
      invariant result + Split(s[start..], d) == Split(s, d)
      decreases |s| - start
    {
      SplitNext(s, d, start);
      result := result + [s[start..end]];
      start := end + |d|;
      end := FindFrom(s, d, start);
      SplitNext(s, d, start);
    }
    SplitNext(s, d, start);
    result := result + [s[start..]];
  }

  method JoinLoop(pieces: seq<string>, d: string) returns (result: string)
    requires pieces != [] || d == []
    ensures result == Join(pieces, d)
  {
    hide Terminated;
    result := [];
    assert pieces[0..] == pieces && result + Terminated(pieces, d) == Terminated(pieces, d);
    for i := 0 to |pieces|
      invariant result + Terminated(pieces[i..], d) == Terminated(pieces, d)
    {
      assert pieces[i..] == [pieces[i]] + pieces[i + 1..];
      TerminatedCons(pieces[i], pieces[i + 1..], d);
      Regroup(result, pieces[i] + d, Terminated(pieces[i + 1..], d));
      result := result + (pieces[i] + d);
    }
    TerminatedNil(d);
    assert result == Terminated(pieces, d);
    if d != [] {
      TerminatedNonEmpty(pieces, d);
      result := result[..|result| - 1];
    }
  }

  lemma IntsNone()
    ensures Ints([]) == Some([])
  {
  }

  lemma IntsNext(pieces: seq<string>, i: nat)
    requires i < |pieces|
    ensures var n, rest := Decimal.Stoi(pieces[i]), Ints(pieces[i + 1..]);
            Ints(pieces[i..]) == if n.Some? && rest.Some? then Some([ToSize(n.value)] + rest.value) else None
  {
    hide Decimal.Stoi;
    assert pieces[i..][1..] == pieces[i + 1..];
  }

  method SplitToIntsLoop(s: string, d: string) returns (result: seq<int>)
    requires d != []
    ensures result == SplitToInts(s, d)
  {
    hide Split, Ints, Decimal.Stoi, ToSize;
    var pieces := SplitLoop(s, d);
    result := [];
    IntsNone();
    assert pieces[0..] == pieces && pieces[|pieces|..] == [];
    for i := 0 to |pieces|
      invariant Ints(pieces).Some? <==> Ints(pieces[i..]).Some?
      invariant Ints(pieces).Some? ==> Ints(pieces).value == result + Ints(pieces[i..]).value
    {
      IntsNext(pieces, i);
      var val := Decimal.Stoi(pieces[i]);
      if val == None {
        return [];
      }
      result := result + [ToSize(val.value)];
    }
  }

  method SplitAtLoop(s: string, pos: seq<int>) returns (result: Option<seq<string>>)
    ensures result == SplitAt(s, pos)
  {
    if pos == [] {
      return None;
    }
    var pieces := [];
    for i := 0 to |pos| - 1
      invariant SplitAt(s, pos).Some? <==> SplitAt(s, pos[i..]).Some?
      invariant SplitAt(s, pos).Some? ==> SplitAt(s, pos).value == pieces + SplitAt(s, pos[i..]).value
    {
      assert pos[i..][1..] == pos[i + 1..];
      var piece := Substr(s, ToInt(pos[i]), ToInt(pos[i + 1] - pos[i]));
      if piece == None {
        return None;
      }
      pieces := pieces + [piece.value];
    }
    assert |pos[|pos| - 1..]| == 1;
    assert pieces + [] == pieces;
    result := Some(pieces);
  }
}
