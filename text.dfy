/**
 * The string operations the carousel performs: number-to-text
 * conversion (JavaScript's implicit conversion of integers), the
 * first-occurrence `String.prototype.replace` used on its templates, and
 * `split(' ')` / `join(' ')` used to put event names in the plugin's
 * namespace.
 */
module Text {

  predicate IsDigit(c: char) {
    '0' <= c <= '9'
  }

  predicate AllDigits(s: string) {
    forall i :: 0 <= i < |s| ==> IsDigit(s[i])
  }

  function DigitChar(d: int): (c: char)
    requires 0 <= d < 10
    ensures IsDigit(c) && c as int - '0' as int == d
  {
    (d + '0' as int) as char
  }

  /** Decimal text of a natural number, without leading zeros. */
  function NatToString(n: nat): (s: string)
    ensures |s| >= 1 && AllDigits(s)
    ensures s[0] == '0' ==> n == 0
  {
    if n < 10 then [DigitChar(n)] else NatToString(n / 10) + [DigitChar(n % 10)]
  }

  /** JavaScript's text for an integer value. */
  function IntToString(i: int): string {
    if i < 0 then "-" + NatToString(-i) else NatToString(i)
  }

  /** Reads back a string of decimal digits. */
  function ParseNat(s: string): nat
    requires AllDigits(s)
  {
    if s == [] then 0 else 10 * ParseNat(s[..|s| - 1]) + (s[|s| - 1] as int - '0' as int)
  }

  /** The decimal text of n reads back as n. */
  lemma {:induction false} ParseNatToString(n: nat)
    ensures ParseNat(NatToString(n)) == n
  {
    var s := NatToString(n);
    if n >= 10 {
      ParseNatToString(n / 10);
      assert s[..|s| - 1] == NatToString(n / 10);
    }
  }

  /** Different numbers are written differently. */
  lemma NatToStringInjective(m: nat, n: nat)
    requires NatToString(m) == NatToString(n)
    ensures m == n
  {
    ParseNatToString(m);
    ParseNatToString(n);
  }

  /** `s.replace(pat, rep)` with a string pattern: only the first occurrence is replaced. */
  function ReplaceFirst(s: string, pat: string, rep: string): string
    requires |pat| > 0
    decreases |s|
  {
    if |s| < |pat| then s
    else if s[..|pat|] == pat then rep + s[|pat|..]
    else [s[0]] + ReplaceFirst(s[1..], pat, rep)
  }

  /** A prefix that lacks the pattern's first character is left as it is. */
  lemma {:induction false} ReplaceFirstSkips(x: string, y: string, pat: string, rep: string)
    requires |pat| > 0 && pat[0] !in x
    ensures ReplaceFirst(x + y, pat, rep) == x + ReplaceFirst(y, pat, rep)
    decreases |x|
  {
    if x != [] {
      var z := x + y;
      assert x[0] in x;
      assert z[0] == x[0];
      assert z[1..] == x[1..] + y;
      ReplaceFirstSkips(x[1..], y, pat, rep);
      if |z| < |pat| {
        assert ReplaceFirst(y, pat, rep) == y;
      } else {
        assert z[..|pat|][0] == x[0];
        calc {
          ReplaceFirst(z, pat, rep);
          [x[0]] + ReplaceFirst(x[1..] + y, pat, rep);
          [x[0]] + (x[1..] + ReplaceFirst(y, pat, rep));
          { assert [x[0]] + x[1..] == x; }
          x + ReplaceFirst(y, pat, rep);
        }
      }
    } else {
      assert x + y == y;
    }
  }

  /** A string that starts with the pattern has that occurrence replaced. */
  lemma ReplaceFirstAtStart(pat: string, y: string, rep: string)
    requires |pat| > 0
    ensures ReplaceFirst(pat + y, pat, rep) == rep + y
  {
    assert (pat + y)[..|pat|] == pat;
    assert (pat + y)[|pat|..] == y;
  }

  /** `s.split(c)`: the pieces between occurrences of c (one piece when c does not occur). */
  function Split(s: string, c: char): (r: seq<string>)
    ensures |r| >= 1
    decreases |s|
  {
    if s == [] then [""]
    else if s[0] == c then [""] + Split(s[1..], c)
    else
      var rest := Split(s[1..], c);
      [[s[0]] + rest[0]] + rest[1..]
  }

  /** `parts.join(c)`. */
  function Join(parts: seq<string>, c: char): string
    decreases |parts|
  {
    if parts == [] then ""
    else if |parts| == 1 then parts[0]
    else parts[0] + [c] + Join(parts[1..], c)
  }

  lemma JoinCons(parts: seq<string>, c: char)
    requires |parts| >= 2
    ensures Join(parts, c) == parts[0] + [c] + Join(parts[1..], c)
  {
  }

  /** Splitting and joining again gives back the original string. */
  lemma {:induction false} JoinSplit(s: string, c: char)
    ensures Join(Split(s, c), c) == s
    decreases |s|
  {
    if s != [] {
      JoinSplit(s[1..], c);
      if s[0] == c {
        JoinSplitSeparator(s, c);
      } else {
        JoinSplitOther(s, c);
      }
    }
  }

  /** The step of JoinSplit for a string that starts with the separator. */
  lemma JoinSplitSeparator(s: string, c: char)
    requires s != [] && s[0] == c
    requires Join(Split(s[1..], c), c) == s[1..]
    ensures Join(Split(s, c), c) == s
  {
    var rest := Split(s[1..], c);
    var r := Split(s, c);
    assert r == [""] + rest;
    JoinCons(r, c);
    assert r[1..] == rest;
    assert Join(r, c) == [c] + s[1..];
  }

  /** The step of JoinSplit for a string that starts with another character. */
  lemma JoinSplitOther(s: string, c: char)
    requires s != [] && s[0] != c
    requires Join(Split(s[1..], c), c) == s[1..]
    ensures Join(Split(s, c), c) == s
  {
    var rest := Split(s[1..], c);
    assert Split(s, c) == [[s[0]] + rest[0]] + rest[1..];
    JoinPrepend(rest, s[0], c);
    assert [s[0]] + s[1..] == s;
  }

  /** A character put in front of the first piece ends up in front of the joined text. */
  lemma JoinPrepend(parts: seq<string>, x: char, c: char)
    requires |parts| >= 1
    ensures Join([[x] + parts[0]] + parts[1..], c) == [x] + Join(parts, c)
  {
    var r := [[x] + parts[0]] + parts[1..];
    if |parts| > 1 {
      JoinCons(parts, c);
      JoinCons(r, c);
      assert r[1..] == parts[1..];
      var tail := Join(parts[1..], c);
      assert ([x] + parts[0]) + [c] + tail == [x] + (parts[0] + [c] + tail);
    }
  }

  /** No piece of a split contains the separator. */
  lemma {:induction false} SplitPiecesLackSeparator(s: string, c: char)
    ensures forall i :: 0 <= i < |Split(s, c)| ==> c !in Split(s, c)[i]
    decreases |s|
  {
    if s != [] {
      SplitPiecesLackSeparator(s[1..], c);
    }
  }

  /** A prefix without the separator joins the first piece of what follows. */
  lemma {:induction false} SplitPrefix(p: string, t: string, c: char)
    requires c !in p
    ensures Split(p + t, c) == [p + Split(t, c)[0]] + Split(t, c)[1..]
    decreases |p|
  {
    if p != [] {
      var z := p + t;
      var st := Split(t, c);
      assert p[0] in p;
      assert z[0] == p[0];
      assert z[1..] == p[1..] + t;
      SplitPrefix(p[1..], t, c);
      var rest := Split(z[1..], c);
      assert rest == [p[1..] + st[0]] + st[1..];
      assert rest[0] == p[1..] + st[0];
      assert rest[1..] == st[1..];
      assert Split(z, c) == [[p[0]] + rest[0]] + rest[1..];
      assert [p[0]] + (p[1..] + st[0]) == p + st[0];
    } else {
      var st := Split(t, c);
      assert p + t == t;
      assert p + st[0] == st[0];
      assert [st[0]] + st[1..] == st;
    }
  }

  /** Joining pieces that lack the separator and splitting again gives back the pieces. */
  lemma {:induction false} SplitJoin(parts: seq<string>, c: char)
    requires |parts| >= 1
    requires forall i :: 0 <= i < |parts| ==> c !in parts[i]
    ensures Split(Join(parts, c), c) == parts
    decreases |parts|
  {
    if |parts| == 1 {
      SplitPrefix(parts[0], "", c);
      assert parts[0] + "" == parts[0];
    } else {
      var tail := Join(parts[1..], c);
      SplitJoin(parts[1..], c);
      JoinCons(parts, c);
      assert parts[0] + [c] + tail == parts[0] + ([c] + tail);
      SplitPrefix(parts[0], [c] + tail, c);
      assert ([c] + tail)[1..] == tail;
      assert Split([c] + tail, c) == [""] + parts[1..];
      assert parts[0] + "" == parts[0];
      assert ([""] + parts[1..])[1..] == parts[1..];
      assert [parts[0]] + parts[1..] == parts;
    }
  }

  /** The plugin's event namespace. */
  const Namespace: string := "carousel"

  /** Each piece with the namespace suffix appended. */
  function Suffixed(parts: seq<string>, suffix: string): seq<string> {
    seq(|parts|, i requires 0 <= i < |parts| => parts[i] + suffix)
  }

  /** `getNamespacedEvents`: 'click keydown' becomes 'click.carousel keydown.carousel'. */
  function NamespacedEvents(events: string): string {
    Join(Suffixed(Split(events, ' '), "." + Namespace), ' ')
  }

  /** Splitting the result at spaces gives exactly the original names, each with ".carousel" appended. */
  lemma NamespacedEventsPieces(events: string)
    ensures var names := Split(events, ' ');
            var out := Split(NamespacedEvents(events), ' ');
            |out| == |names| && forall i :: 0 <= i < |names| ==> out[i] == names[i] + ".carousel"
  {
    var names := Split(events, ' ');
    var parts := Suffixed(names, "." + Namespace);
    SplitPiecesLackSeparator(events, ' ');
    forall i | 0 <= i < |parts| ensures ' ' !in parts[i] {
      assert ' ' !in names[i];
      assert ' ' !in ".carousel";
      assert parts[i] == names[i] + ".carousel";
    }
    SplitJoin(parts, ' ');
  }

  /** The empty event list becomes the bare namespace, which `.off` reads as "every event of the plugin". */
  lemma NamespacedEventsOfNothing()
    ensures NamespacedEvents("") == ".carousel"
  {
  }
}
