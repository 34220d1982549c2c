/** Dollar-quoted literals: choosing a tag, and reading the literal back as PostgreSQL section 4.1.2.4 does. */
module DollarQuote {
  import opened Collections

  // ----- finding one string in another -----

  predicate Occurs(s: string, p: string, i: nat) {
    i + |p| <= |s| && s[i..i + |p|] == p
  }

  predicate Contains(s: string, p: string) {
    exists i :: 0 <= i <= |s| && Occurs(s, p, i)
  }

  /** The first occurrence of `p` at or after `i`. */
  function Find(s: string, p: string, i: nat): (r: Option<nat>)
    requires i <= |s|
    ensures r.Some? ==> i <= r.value && Occurs(s, p, r.value) && forall j :: i <= j < r.value ==> !Occurs(s, p, j)
    ensures r.None? ==> forall j :: i <= j <= |s| ==> !Occurs(s, p, j)
    decreases |s| - i
  {
    if Occurs(s, p, i) then Some(i)
    else if i == |s| then None
    else Find(s, p, i + 1)
  }

  // ----- writing -----

  function Delimiter(tag: string): string {
    "$" + tag + "$"
  }

  function Literal(tag: string, body: string): string {
    Delimiter(tag) + body + Delimiter(tag)
  }

  /** `tag` with `n` letters X appended. */
  function Lengthened(tag: string, n: nat): (r: string)
    ensures |r| == |tag| + n
  {
    if n == 0 then tag else Lengthened(tag, n - 1) + "X"
  }

  lemma {:induction false} LengthenedIsATag(tag: string, n: nat)
    requires '$' !in tag
    ensures '$' !in Lengthened(tag, n)
  {
    if n == 0 {
    } else {
      LengthenedIsATag(tag, n - 1);
    }
  }

  /** `tag` with `added` letters appended is the shortest lengthening whose delimiter the body does not hold. */
  ghost predicate Chosen(body: string, tag: string, added: nat) {
    && !Contains(body, Delimiter(Lengthened(tag, added)))
    && forall n :: 0 <= n < added ==> Contains(body, Delimiter(Lengthened(tag, n)))
  }

  /** The tag followed by `n` letters X, between dollars. */
  ghost function Quotes(tag: string, n: nat): string {
    "$" + tag + seq(n, _ => 'X') + "$"
  }

  ghost predicate Within(body: string, quotes: string) {
    exists a, b :: body == a + quotes + b
  }

  /** The literal puts the body between the first of these quotes that does not occur in it. */
  ghost predicate Quoted(literal: string, body: string, tag: string, n: nat) {
    && literal == Quotes(tag, n) + body + Quotes(tag, n)
    && !Within(body, Quotes(tag, n))
    && forall k :: 0 <= k < n ==> Within(body, Quotes(tag, k))
  }

  lemma {:induction false} LengthenedByXs(tag: string, n: nat)
    ensures Lengthened(tag, n) == tag + seq(n, _ => 'X')
  {
    if n == 0 {
    } else {
      LengthenedByXs(tag, n - 1);
      assert seq(n, _ => 'X') == seq(n - 1, _ => 'X') + "X";
    }
  }

  lemma QuotesAre(tag: string, n: nat)
    ensures Delimiter(Lengthened(tag, n)) == Quotes(tag, n)
  {
    LengthenedByXs(tag, n);
    assert "$" + (tag + seq(n, _ => 'X')) + "$" == Quotes(tag, n);
  }

  lemma ContainsMeans(body: string, p: string)
    ensures Contains(body, p) <==> Within(body, p)
  {
    if Contains(body, p) {
      var i :| 0 <= i <= |body| && Occurs(body, p, i);
      assert body == body[..i] + p + body[i + |p|..];
    }
    if a, b :| body == a + p + b {
      assert body[|a|..|a| + |p|] == p;
      assert Occurs(body, p, |a|);
    }
  }

  lemma ChosenMeans(body: string, tag: string, n: nat)
    requires Chosen(body, tag, n)
    ensures Quoted(Literal(Lengthened(tag, n), body), body, tag, n)
  {
    forall k | 0 <= k <= n ensures Contains(body, Delimiter(Lengthened(tag, k))) <==> Within(body, Quotes(tag, k)) {
      QuotesAre(tag, k);
      ContainsMeans(body, Quotes(tag, k));
    }
    QuotesAre(tag, n);
  }

  method Quote(body: string, tag: string) returns (literal: string)
    ensures exists added :: Chosen(body, tag, added) && literal == Literal(Lengthened(tag, added), body)
    ensures exists n :: Quoted(literal, body, tag, n)
  {
    var used := tag;
    ghost var added := 0;
    while Contains(body, Delimiter(used))
      invariant used == Lengthened(tag, added)
      invariant forall n :: 0 <= n < added ==> Contains(body, Delimiter(Lengthened(tag, n)))
      decreases |body| - |used|
    {
      used := used + "X";
      added := added + 1;
    }
    literal := Delimiter(used) + body + Delimiter(used);
    assert Chosen(body, tag, added);
    ChosenMeans(body, tag, added);
  }

  // ----- reading -----

  datatype Reading = Reading(body: string, rest: string)

  /** The delimiter a literal opens with: a dollar, up to and including the next one. */
  function Opening(text: string): (r: Option<string>)
    ensures r.Some? ==> |r.value| <= |text|
  {
    if text == [] || text[0] != '$' then None
    else
      match Find(text, "$", 1)
      case None => None
      case Some(end) => Some(text[..end + 1])
  }

  /** Splits at the first copy of the delimiter. */
  function UpTo(text: string, delimiter: string): Option<Reading> {
    match Find(text, delimiter, 0)
    case None => None
    case Some(close) => Some(Reading(text[..close], text[close + |delimiter|..]))
  }

  /** Everything between the opening delimiter and the first copy of it. */
  function ReadLiteral(text: string): Option<Reading> {
    var delimiter := Opening(text);
    if delimiter.None? then None else UpTo(text[|delimiter.value|..], delimiter.value)
  }

  predicate EndsWith(s: string, p: string) {
    |p| <= |s| && s[|s| - |p|..] == p
  }

  /** A delimiter overlaps a shifted copy of itself only in its last dollar. */
  lemma DelimiterOverlap(tag: string, shift: nat)
    requires '$' !in tag && 0 < shift < |Delimiter(tag)|
    requires Delimiter(tag)[shift..] == Delimiter(tag)[..|Delimiter(tag)| - shift]
    ensures shift == |tag| + 1
  {
    var d := Delimiter(tag);
    forall k | 0 < k < |tag| + 1 ensures d[k] != '$' {
      assert d[k] == tag[k - 1];
    }
    assert d[shift] == d[shift..][0] == d[0] == '$';
  }

  lemma CopyInside(s: string, p: string, rest: string, i: nat)
    requires i + |p| <= |s| && Occurs(s + rest, p, i)
    ensures Contains(s, p)
  {
    assert s[i..i + |p|] == (s + rest)[i..i + |p|];
    assert Occurs(s, p, i);
  }

  /** Where the body ends and a delimiter begins, no earlier copy fits unless the body ends like one. */
  lemma EarlyCopy(body: string, tag: string, rest: string, i: nat)
    requires '$' !in tag && !Contains(body, Delimiter(tag))
    requires i < |body| && Occurs(body + Delimiter(tag) + rest, Delimiter(tag), i)
    ensures EndsWith(body, "$" + tag) && i == |body| - |tag| - 1
  {
    var d := Delimiter(tag);
    var all := body + d + rest;
    var shift := |body| - i;
    assert all == body + (d + rest);
    assert all[i..i + |d|] == d;
    if shift >= |d| {
      CopyInside(body, d, d + rest, i);
      assert false;
    } else {
      assert d[shift..] == all[i + shift..i + |d|] == d[..|d| - shift];
      DelimiterOverlap(tag, shift);
      assert d[..shift] == "$" + tag;
      forall k | 0 <= k < shift ensures body[i..][k] == d[k] {
        assert all[i..i + |d|][k] == all[i + k] == body[i + k];
      }
      assert body[i..] == d[..shift];
    }
  }

  lemma CloseIsThere(body: string, tag: string, rest: string)
    ensures Occurs(body + Delimiter(tag) + rest, Delimiter(tag), |body|)
    ensures EndsWith(body, "$" + tag) ==> Occurs(body + Delimiter(tag) + rest, Delimiter(tag), |body| - |tag| - 1)
  {
    var d := Delimiter(tag);
    var all := body + d + rest;
    assert all[|body|..|body| + |d|] == d;
    if EndsWith(body, "$" + tag) {
      var i := |body| - |tag| - 1;
      assert all[i..i + |d|] == body[i..] + [d[0]] == d;
    }
  }

  /** Which closing delimiter the reader stops at. */
  lemma FirstClose(body: string, tag: string, rest: string)
    requires '$' !in tag && !Contains(body, Delimiter(tag))
    ensures Find(body + Delimiter(tag) + rest, Delimiter(tag), 0) ==
            Some(if EndsWith(body, "$" + tag) then |body| - |tag| - 1 else |body|)
  {
    CloseIsThere(body, tag, rest);
    var found := Find(body + Delimiter(tag) + rest, Delimiter(tag), 0);
    if found.Some? && found.value < |body| {
      EarlyCopy(body, tag, rest, found.value);
    }
  }

  lemma FirstIs(s: string, p: string, i: nat, k: nat)
    requires i <= k <= |s| && Occurs(s, p, k) && forall j :: i <= j < k ==> !Occurs(s, p, j)
    ensures Find(s, p, i) == Some(k)
  {
  }

  lemma OpeningDelimiter(tag: string, after: string)
    requires '$' !in tag
    ensures Opening(Delimiter(tag) + after) == Some(Delimiter(tag))
  {
    var text := Delimiter(tag) + after;
    assert text[|tag| + 1..|tag| + 2] == "$";
    forall j | 1 <= j < |tag| + 1 ensures !Occurs(text, "$", j) {
      assert text[j] == tag[j - 1];
      assert text[j..j + 1] == [tag[j - 1]];
    }
    FirstIs(text, "$", 1, |tag| + 1);
    assert text[..|tag| + 2] == Delimiter(tag);
  }

  lemma ReadAfterOpening(tag: string, after: string)
    requires '$' !in tag
    ensures ReadLiteral(Delimiter(tag) + after) == UpTo(after, Delimiter(tag))
  {
    OpeningDelimiter(tag, after);
    assert (Delimiter(tag) + after)[|Delimiter(tag)|..] == after;
  }

  /** What is read once the literal is open. */
  function ReadingOf(body: string, tag: string, rest: string): Reading {
    if EndsWith(body, "$" + tag) then Reading(body[..|body| - |tag| - 1], tag + "$" + rest) else Reading(body, rest)
  }

  lemma UpToClose(body: string, tag: string, rest: string)
    requires '$' !in tag && !Contains(body, Delimiter(tag))
    ensures UpTo(body + Delimiter(tag) + rest, Delimiter(tag)) == Some(ReadingOf(body, tag, rest))
  {
    FirstClose(body, tag, rest);
    if EndsWith(body, "$" + tag) {
      Leftover(body, tag, rest, |body| - |tag| - 1);
    } else {
      NothingLeft(body, tag, rest);
    }
  }

  /** What reading a literal gives, whatever follows it. */
  lemma ReadBack(body: string, tag: string, rest: string)
    requires '$' !in tag && !Contains(body, Delimiter(tag))
    ensures ReadLiteral(Literal(tag, body) + rest) == Some(ReadingOf(body, tag, rest))
  {
    LiteralOpens(body, tag, rest);
    UpToClose(body, tag, rest);
    ReadFrom(Literal(tag, body) + rest, tag, body + Delimiter(tag) + rest, ReadingOf(body, tag, rest));
  }

  lemma LiteralOpens(body: string, tag: string, rest: string)
    ensures Literal(tag, body) + rest == Delimiter(tag) + (body + Delimiter(tag) + rest)
  {
  }

  lemma ReadFrom(text: string, tag: string, after: string, reading: Reading)
    requires '$' !in tag && text == Delimiter(tag) + after && UpTo(after, Delimiter(tag)) == Some(reading)
    ensures ReadLiteral(text) == Some(reading)
  {
    ReadAfterOpening(tag, after);
  }

  lemma NothingLeft(body: string, tag: string, rest: string)
    ensures var after := body + Delimiter(tag) + rest;
            after[..|body|] == body && after[|body| + |Delimiter(tag)|..] == rest
  {
  }

  lemma Leftover(body: string, tag: string, rest: string, close: nat)
    requires close + |tag| + 1 == |body|
    ensures var after := body + Delimiter(tag) + rest;
            && after[..close] == body[..close]
            && after[close + |Delimiter(tag)|..] == tag + "$" + rest
  {
    var after := body + Delimiter(tag) + rest;
    assert after[..close] == body[..close];
    assert after[close + |Delimiter(tag)|..] == tag + "$" + rest;
  }

  /** The literal reads back as its body exactly when the body does not end in a dollar and the chosen tag. */
  lemma RoundTripIff(body: string, tag: string, added: nat, rest: string)
    requires '$' !in tag && Chosen(body, tag, added)
    ensures ReadLiteral(Literal(Lengthened(tag, added), body) + rest) == Some(Reading(body, rest)) <==>
            !EndsWith(body, "$" + Lengthened(tag, added))
  {
    LengthenedIsATag(tag, added);
    ReadBack(body, Lengthened(tag, added), rest);
  }

  /** A body that is a dollar and the default tag is cut short. */
  lemma DollarTagBodyIsCut()
    ensures !Contains("$MSG", Delimiter("MSG"))
    ensures ReadLiteral(Literal("MSG", "$MSG")) == Some(Reading("", "MSG$"))
  {
    var body := "$MSG";
    assert body[|body| - 4..] == "$MSG";
    ReadBack(body, "MSG", "");
    assert Literal("MSG", body) + "" == Literal("MSG", body);
    assert "MSG" + "$" + "" == "MSG$";
  }
}
