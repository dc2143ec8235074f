/** The JavaScript string operations the handlers rely on, stated over
    `seq<char>`: `indexOf`/`includes`, `split` with a one-character and
    with a longer separator, `replace` with a string pattern (first
    occurrence only), `toLowerCase`, `trim`, `replace(/\s+/g, r)` and
    `Number.prototype.toString` on naturals. */
module Text {
  import opened Common

  // ---------------------------------------------------------------------
  // Searching

  /** `pat` occurs in `s` starting at index `i`. */
  predicate OccursAt(s: string, pat: string, i: nat)
  {
    i + |pat| <= |s| && s[i..i + |pat|] == pat
  }

  /** `s.indexOf(pat, from)`, with None for -1. */
  function IndexOfFrom(s: string, pat: string, from: nat): (r: Option<nat>)
    ensures r.Some? ==> from <= r.value && OccursAt(s, pat, r.value)
    ensures r.Some? ==> forall j :: from <= j < r.value ==> !OccursAt(s, pat, j)
    ensures r.None? ==> forall j :: from <= j ==> !OccursAt(s, pat, j)
    decreases |s| - from
  {
    if from + |pat| > |s| then None
    else if OccursAt(s, pat, from) then Some(from)
    else IndexOfFrom(s, pat, from + 1)
  }

  function IndexOf(s: string, pat: string): Option<nat>
  {
    IndexOfFrom(s, pat, 0)
  }

  /** `s.includes(pat)`. */
  predicate Contains(s: string, pat: string)
  {
    IndexOf(s, pat).Some?
  }

  lemma ContainsIff(s: string, pat: string)
    ensures Contains(s, pat) <==> exists i: nat :: OccursAt(s, pat, i)
  {
  }

  /** A string containing `p + q` contains `q`. */
  lemma ContainsTail(s: string, p: string, q: string)
    requires Contains(s, p + q)
    ensures Contains(s, q)
  {
    var i := IndexOf(s, p + q).value;
    assert s[i..i + |p + q|] == p + q;
    assert s[i + |p|..i + |p| + |q|] == s[i..i + |p + q|][|p|..];
    assert OccursAt(s, q, i + |p|);
  }

  /** A string containing `pat` contains each character of `pat`. */
  lemma ContainsChars(s: string, pat: string, c: char)
    requires Contains(s, pat) && c in pat
    ensures c in s
  {
    var i := IndexOf(s, pat).value;
    var k :| 0 <= k < |pat| && pat[k] == c;
    assert s[i..i + |pat|][k] == s[i + k];
  }

  /** An occurrence of `pat` inside `s[i..]` is an occurrence inside `s`, shifted. */
  lemma OccursAtSuffix(s: string, pat: string, i: nat, j: nat)
    requires i <= |s|
    ensures OccursAt(s[i..], pat, j) <==> OccursAt(s, pat, i + j)
  {
    if i + j + |pat| <= |s| {
      assert s[i..][j..j + |pat|] == s[i + j..i + j + |pat|];
    }
  }

  // ---------------------------------------------------------------------
  // Splitting on one character: `s.split(c)` and its inverse `parts.join(c)`

  function Split(s: string, c: char): (parts: seq<string>)
    ensures |parts| >= 1
  {
    if s == [] then [[]]
    else
      var rest := Split(s[1..], c);
      if s[0] == c then [[]] + rest else [[s[0]] + rest[0]] + rest[1..]
  }

  function Join(parts: seq<string>, c: char): string
    requires |parts| >= 1
  {
    if |parts| == 1 then parts[0] else parts[0] + [c] + Join(parts[1..], c)
  }

  /** No part of a split contains the separator. */
  lemma {:induction false} SplitPartsFree(s: string, c: char)
    ensures forall k :: 0 <= k < |Split(s, c)| ==> c !in Split(s, c)[k]
  {
    if s != [] {
      SplitPartsFree(s[1..], c);
    }
  }

  /** Joining the parts of a split gives the string back. */
  lemma {:induction false} JoinSplit(s: string, c: char)
    ensures Join(Split(s, c), c) == s
  {
    if s != [] {
      var rest := Split(s[1..], c);
      JoinSplit(s[1..], c);
      if s[0] == c {
        assert Split(s, c)[1..] == rest;
      } else {
        var ps := Split(s, c);
        if |rest| == 1 {
          assert ps == [[s[0]] + rest[0]];
        } else {
          assert ps[1..] == rest[1..];
          assert Join(rest, c) == rest[0] + [c] + Join(rest[1..], c);
        }
      }
    }
  }

  /** Splitting a join of separator-free parts gives the parts back. */
  lemma {:induction false} SplitJoin(parts: seq<string>, c: char)
    requires |parts| >= 1
    requires forall k :: 0 <= k < |parts| ==> c !in parts[k]
    ensures Split(Join(parts, c), c) == parts
  {
    if |parts| == 1 {
      SplitFree(parts[0], c);
    } else {
      SplitJoin(parts[1..], c);
      SplitPrefix(parts[0], Join(parts[1..], c), c);
    }
  }

  /** A separator-free string splits into itself. */
  lemma {:induction false} SplitFree(s: string, c: char)
    requires c !in s
    ensures Split(s, c) == [s]
  {
    if s != [] {
      assert c !in s[1..];
      SplitFree(s[1..], c);
      assert [s[0]] + s[1..] == s;
    }
  }

  /** Splitting `a + [c] + b` for a separator-free `a`. */
  lemma {:induction false} SplitPrefix(a: string, b: string, c: char)
    requires c !in a
    ensures Split(a + [c] + b, c) == [a] + Split(b, c)
  {
    if a == [] {
      assert a + [c] + b == [c] + b;
      assert ([c] + b)[1..] == b;
    } else {
      assert (a + [c] + b)[1..] == a[1..] + [c] + b;
      SplitPrefix(a[1..], b, c);
      assert [a[0]] + a[1..] == a;
    }
  }

  /** `s.split(c).pop()`: the text after the last `c`. */
  function LastSegment(s: string, c: char): string
  {
    var parts := Split(s, c);
    parts[|parts| - 1]
  }

  /** The last segment holds no separator, and `s` is that segment preceded
      by either nothing or some text ending in the separator. */
  lemma LastSegmentShape(s: string, c: char)
    ensures c !in LastSegment(s, c)
    ensures exists prefix: string ::
              s == prefix + LastSegment(s, c) && (prefix == [] || prefix[|prefix| - 1] == c)
    ensures c !in s ==> LastSegment(s, c) == s
  {
    SplitPartsFree(s, c);
    var parts := Split(s, c);
    JoinSplit(s, c);
    if |parts| == 1 {
      assert s == [] + LastSegment(s, c);
    } else {
      JoinLast(parts, c);
      var prefix := Join(parts[..|parts| - 1], c) + [c];
      assert s == prefix + LastSegment(s, c);
    }
    if c !in s {
      SplitFree(s, c);
    }
  }

  /** The last part of a join comes after the final separator. */
  lemma {:induction false} JoinLast(parts: seq<string>, c: char)
    requires |parts| >= 2
    ensures Join(parts, c) == Join(parts[..|parts| - 1], c) + [c] + parts[|parts| - 1]
  {
    if |parts| > 2 {
      JoinLast(parts[1..], c);
      assert parts[1..][..|parts| - 2] == parts[..|parts| - 1][1..];
    }
  }

  // ---------------------------------------------------------------------
  // Splitting on a longer separator: `s.split(sep)[1]`

  /** The second field of `s.split(sep)` for a string that contains `sep`:
      the text after the first occurrence, up to the next one. */
  function SecondField(s: string, sep: string): (r: string)
    requires |sep| > 0 && Contains(s, sep)
  {
    var first := IndexOf(s, sep).value;
    var rest := s[first + |sep|..];
    match IndexOf(rest, sep)
    case None => rest
    case Some(next) => rest[..next]
  }

  /** The second field starts right after the first occurrence of the
      separator, contains no occurrence of it, no occurrence of it starts
      inside it (even one overlapping its end), and it runs up to the next
      occurrence or to the end of `s`. */
  lemma SecondFieldShape(s: string, sep: string)
    requires |sep| > 0 && Contains(s, sep)
    ensures var first := IndexOf(s, sep).value;
            && OccursAt(s, sep, first)
            && (forall j :: 0 <= j < first ==> !OccursAt(s, sep, j))
            && first + |sep| + |SecondField(s, sep)| <= |s|
            && s[first + |sep|..first + |sep| + |SecondField(s, sep)|] == SecondField(s, sep)
            && !Contains(SecondField(s, sep), sep)
            && (forall j :: first + |sep| <= j < first + |sep| + |SecondField(s, sep)| ==> !OccursAt(s, sep, j))
            && (first + |sep| + |SecondField(s, sep)| == |s| || OccursAt(s, sep, first + |sep| + |SecondField(s, sep)|))
  {
    SecondFieldNoInner(s, sep);
    var first := IndexOf(s, sep).value;
    var rest := s[first + |sep|..];
    var r := SecondField(s, sep);
    match IndexOf(rest, sep)
    case None =>
    case Some(next) =>
      assert rest[..next] == r;
      OccursAtSuffix(s, sep, first + |sep|, next);
      NoOccurrenceBefore(rest, sep, next);
  }

  /** The clauses of `SecondFieldShape` pin the second field: any text
      that starts after the first separator, has no separator starting
      inside it and is followed by one or by the end is that field. */
  lemma SecondFieldPinned(s: string, sep: string, t: string)
    requires |sep| > 0 && Contains(s, sep)
    requires var start := IndexOf(s, sep).value + |sep|;
             && start + |t| <= |s| && s[start..start + |t|] == t
             && (forall j :: start <= j < start + |t| ==> !OccursAt(s, sep, j))
             && (start + |t| == |s| || OccursAt(s, sep, start + |t|))
    ensures t == SecondField(s, sep)
  {
    SecondFieldShape(s, sep);
  }

  /** No occurrence of the separator starts inside the second field. */
  lemma SecondFieldNoInner(s: string, sep: string)
    requires |sep| > 0 && Contains(s, sep)
    ensures var start := IndexOf(s, sep).value + |sep|;
            forall j :: start <= j < start + |SecondField(s, sep)| ==> !OccursAt(s, sep, j)
  {
    var start := IndexOf(s, sep).value + |sep|;
    var rest := s[start..];
    var r := SecondField(s, sep);
    assert IndexOf(rest, sep).Some? ==> |r| == IndexOf(rest, sep).value;
    forall j | start <= j < start + |r| ensures !OccursAt(s, sep, j) {
      OccursAtSuffix(s, sep, start, j - start);
      assert !OccursAt(rest, sep, j - start);
    }
  }

  /** A prefix that ends before the first occurrence of `pat` holds none. */
  lemma NoOccurrenceBefore(t: string, pat: string, n: nat)
    requires |pat| > 0 && n <= |t|
    requires forall j :: 0 <= j < n ==> !OccursAt(t, pat, j)
    ensures forall j: nat :: !OccursAt(t[..n], pat, j)
  {
    forall j: nat ensures !OccursAt(t[..n], pat, j) {
      if j + |pat| <= n {
        assert t[..n][j..j + |pat|] == t[j..j + |pat|];
        assert !OccursAt(t, pat, j);
      }
    }
  }

  // ---------------------------------------------------------------------
  // `s.replace(pat, rep)` with a string pattern: first occurrence only

  function ReplaceFirst(s: string, pat: string, rep: string): (r: string)
    ensures !Contains(s, pat) ==> r == s
    ensures Contains(s, pat) ==> |r| == |s| - |pat| + |rep|
  {
    match IndexOf(s, pat)
    case None => s
    case Some(i) => s[..i] + rep + s[i + |pat|..]
  }

  lemma ReplaceFirstAbsent(s: string, pat: string, rep: string)
    requires !Contains(s, pat)
    ensures ReplaceFirst(s, pat, rep) == s
  {
  }

  /** A string that starts with the pattern loses exactly that prefix. */
  lemma ReplaceFirstPrefix(pat: string, t: string, rep: string)
    ensures ReplaceFirst(pat + t, pat, rep) == rep + t
  {
    assert OccursAt(pat + t, pat, 0);
    assert (pat + t)[|pat|..] == t;
  }

  // ---------------------------------------------------------------------
  // Case and white space

  predicate IsUpper(c: char) { 'A' <= c <= 'Z' }

  /** `toLowerCase` on one character (ASCII letters only). */
  function Lower(c: char): (d: char)
    ensures !IsUpper(d)
    ensures !IsUpper(c) ==> d == c
  {
    if IsUpper(c) then (c as int + 32) as char else c
  }

  function ToLower(s: string): (r: string)
    ensures |r| == |s|
    ensures forall i :: 0 <= i < |s| ==> r[i] == Lower(s[i])
  {
    seq(|s|, i requires 0 <= i < |s| => Lower(s[i]))
  }

  /** The white space of `String.prototype.trim` and of the regular
      expression class `\s`: WhiteSpace and LineTerminator. */
  predicate IsSpace(c: char)
  {
    || c == ' ' || c == '\t' || c == '\n' || c == '\r'
    || c == '\U{B}' || c == '\U{C}' || c == '\U{A0}' || c == '\U{1680}'
    || ('\U{2000}' <= c <= '\U{200A}')
    || c == '\U{2028}' || c == '\U{2029}' || c == '\U{202F}' || c == '\U{205F}'
    || c == '\U{3000}' || c == '\U{FEFF}'
  }

  predicate NoSpace(s: string)
  {
    forall i :: 0 <= i < |s| ==> !IsSpace(s[i])
  }

  predicate NoUpper(s: string)
  {
    forall i :: 0 <= i < |s| ==> !IsUpper(s[i])
  }

  predicate AllSpace(s: string)
  {
    forall i :: 0 <= i < |s| ==> IsSpace(s[i])
  }

  /** Drops the leading white space; `TrimStartDropsSpace` says it is all of it. */
  function TrimStart(s: string): (r: string)
    ensures |r| <= |s| && r == s[|s| - |r|..]
    ensures r == [] || !IsSpace(r[0])
  {
    if s != [] && IsSpace(s[0]) then TrimStart(s[1..]) else s
  }

  /** Drops the trailing white space; `TrimEndDropsSpace` says it is all of it. */
  function TrimEnd(s: string): (r: string)
    ensures |r| <= |s| && r == s[..|r|]
    ensures r == [] || !IsSpace(r[|r| - 1])
  {
    if s != [] && IsSpace(s[|s| - 1]) then TrimEnd(s[..|s| - 1]) else s
  }

  /** What `TrimStart` drops is white space, so an empty result means the
      whole string was white space. */
  lemma {:induction false} TrimStartDropsSpace(s: string)
    ensures AllSpace(s[..|s| - |TrimStart(s)|])
    ensures TrimStart(s) == [] ==> AllSpace(s)
  {
    if s != [] && IsSpace(s[0]) {
      TrimStartDropsSpace(s[1..]);
      assert s[..|s| - |TrimStart(s)|] == [s[0]] + s[1..][..|s| - 1 - |TrimStart(s)|];
    }
  }

  /** What `TrimEnd` drops is white space. */
  lemma {:induction false} TrimEndDropsSpace(s: string)
    ensures AllSpace(s[|TrimEnd(s)|..])
  {
    if s != [] && IsSpace(s[|s| - 1]) {
      TrimEndDropsSpace(s[..|s| - 1]);
      assert s[|TrimEnd(s)|..] == s[..|s| - 1][|TrimEnd(s)|..] + [s[|s| - 1]];
    }
  }

  /** `s.trim()`. */
  function Trim(s: string): string
  {
    TrimEnd(TrimStart(s))
  }

  /** `s.replace(/\s+/g, rep)`: every maximal run of white space becomes `rep`. */
  function CollapseSpaces(s: string, rep: char): string
  {
    if s == [] then []
    else if IsSpace(s[0]) then [rep] + CollapseSpaces(TrimStart(s), rep)
    else [s[0]] + CollapseSpaces(s[1..], rep)
  }

  lemma {:induction false} CollapseSpacesClean(s: string, rep: char)
    requires !IsSpace(rep)
    ensures NoSpace(CollapseSpaces(s, rep))
  {
    if s != [] {
      if IsSpace(s[0]) {
        CollapseSpacesClean(TrimStart(s), rep);
      } else {
        CollapseSpacesClean(s[1..], rep);
      }
    }
  }

  /** Collapsing keeps the absence of upper-case letters, provided the
      replacement is not one. */
  lemma {:induction false} CollapseSpacesNoUpper(s: string, rep: char)
    requires NoUpper(s) && !IsUpper(rep)
    ensures NoUpper(CollapseSpaces(s, rep))
  {
    if s != [] {
      if IsSpace(s[0]) {
        var t := TrimStart(s);
        assert forall i :: 0 <= i < |t| ==> t[i] == s[|s| - |t| + i];
        CollapseSpacesNoUpper(t, rep);
      } else {
        CollapseSpacesNoUpper(s[1..], rep);
      }
    }
  }

  lemma {:induction false} CollapseSpacesIdentity(s: string, rep: char)
    requires NoSpace(s)
    ensures CollapseSpaces(s, rep) == s
  {
    if s != [] {
      CollapseSpacesIdentity(s[1..], rep);
    }
  }

  /** A space-free prefix passes through unchanged. */
  lemma {:induction false} CollapseSpacesPrefix(a: string, b: string, rep: char)
    requires NoSpace(a)
    ensures CollapseSpaces(a + b, rep) == a + CollapseSpaces(b, rep)
  {
    if a != [] {
      assert (a + b)[1..] == a[1..] + b;
      CollapseSpacesPrefix(a[1..], b, rep);
    } else {
      assert a + b == b;
    }
  }

  /** A single space between two space-free words becomes `rep`. */
  lemma CollapseSingleSpace(a: string, sp: char, b: string, rep: char)
    requires NoSpace(a) && IsSpace(sp) && NoSpace(b)
    ensures CollapseSpaces(a + [sp] + b, rep) == a + [rep] + b
  {
    var t := [sp] + b;
    calc {
      CollapseSpaces(a + [sp] + b, rep);
    == { assert a + [sp] + b == a + t; }
      CollapseSpaces(a + t, rep);
    == { CollapseSpacesPrefix(a, t, rep); }
      a + CollapseSpaces(t, rep);
    == { CollapseRun(t, rep); assert t[1..] == b; assert TrimStart(b) == b; }
      a + ([rep] + CollapseSpaces(b, rep));
    == { CollapseSpacesIdentity(b, rep); }
      a + ([rep] + b);
    == { assert a + ([rep] + b) == a + [rep] + b; }
      a + [rep] + b;
    }
  }

  /** Trimming keeps the absence of upper-case letters. */
  lemma TrimNoUpper(s: string)
    requires NoUpper(s)
    ensures NoUpper(Trim(s))
  {
    var u := TrimStart(s);
    forall i | 0 <= i < |u| ensures !IsUpper(u[i]) {
      assert u[i] == s[|s| - |u| + i];
    }
    var t := TrimEnd(u);
    forall i | 0 <= i < |t| ensures !IsUpper(t[i]) {
      assert t[i] == u[i];
    }
  }

  lemma TrimIdentity(s: string)
    requires NoSpace(s)
    ensures Trim(s) == s
  {
    assert TrimStart(s) == s;
  }

  // ---------------------------------------------------------------------
  // Words: the maximal runs of non-white-space characters

  /** The leading run of non-white-space characters of `s`. */
  function LeadingWord(s: string): (w: string)
    ensures |w| <= |s| && w == s[..|w|] && NoSpace(w)
    ensures |w| < |s| ==> IsSpace(s[|w|])
    ensures s != [] && !IsSpace(s[0]) ==> |w| > 0
  {
    if s == [] || IsSpace(s[0]) then [] else [s[0]] + LeadingWord(s[1..])
  }

  /** The words of `s`, in order. */
  function Words(s: string): (ws: seq<string>)
    decreases |s|
  {
    if s == [] then []
    else if IsSpace(s[0]) then Words(s[1..])
    else
      var w := LeadingWord(s);
      [w] + Words(s[|w|..])
  }

  /** The words joined with `c` between neighbours; the empty string for none. */
  function Unwords(ws: seq<string>, c: char): string
  {
    if ws == [] then [] else Join(ws, c)
  }

  /** Leading white space holds no word. */
  lemma {:induction false} WordsSkipSpace(sp: string, s: string)
    requires AllSpace(sp)
    ensures Words(sp + s) == Words(s)
  {
    if sp == [] {
      assert sp + s == s;
    } else {
      assert (sp + s)[1..] == sp[1..] + s;
      WordsSkipSpace(sp[1..], s);
    }
  }

  /** A space-free word followed by white space or by nothing is the leading word. */
  lemma {:induction false} LeadingWordPrefix(w: string, s: string)
    requires NoSpace(w)
    requires s == [] || IsSpace(s[0])
    ensures LeadingWord(w + s) == w
  {
    if w == [] {
      assert w + s == s;
    } else {
      assert (w + s)[1..] == w[1..] + s;
      LeadingWordPrefix(w[1..], s);
    }
  }

  /** Trailing white space holds no word. */
  lemma {:induction false} WordsDropSpace(s: string, sp: string)
    requires AllSpace(sp)
    ensures Words(s + sp) == Words(s)
    decreases |s|
  {
    if s == [] {
      assert s + sp == sp + [];
      WordsSkipSpace(sp, []);
    } else if IsSpace(s[0]) {
      assert (s + sp)[1..] == s[1..] + sp;
      WordsDropSpace(s[1..], sp);
    } else {
      var w := LeadingWord(s);
      var rest := s[|w|..];
      assert s + sp == w + (rest + sp);
      LeadingWordPrefix(w, rest + sp);
      assert (s + sp)[|w|..] == rest + sp;
      WordsDropSpace(rest, sp);
    }
  }

  /** Joining one more word in front adds it and one separator. */
  lemma UnwordsCons(w: string, ws: seq<string>, c: char)
    requires ws != []
    ensures Unwords([w] + ws, c) == w + [c] + Unwords(ws, c)
  {
    assert ([w] + ws)[1..] == ws;
  }

  /** A string that does not end in white space keeps its last character
      when its leading white space is trimmed. */
  lemma TrimStartKeepsLast(s: string)
    requires s != [] && !IsSpace(s[|s| - 1])
    ensures TrimStart(s) != [] && TrimStart(s)[|TrimStart(s)| - 1] == s[|s| - 1]
  {
    TrimStartDropsSpace(s);
  }

  /** After the leading word of a string that does not end in white space,
      the rest is empty or followed, once its leading white space is
      trimmed, by a non-empty string that starts and ends outside white
      space. */
  lemma TrimmedTail(s: string)
    requires s != [] && !IsSpace(s[0]) && !IsSpace(s[|s| - 1])
    ensures var rest := s[|LeadingWord(s)|..];
            rest != [] ==>
              var u := TrimStart(rest);
              u != [] && !IsSpace(u[0]) && !IsSpace(u[|u| - 1]) && |u| < |s|
  {
    var rest := s[|LeadingWord(s)|..];
    if rest != [] {
      assert rest[|rest| - 1] == s[|s| - 1];
      TrimStartKeepsLast(rest);
    }
  }

  /** A string that starts with a word has that word first among its words. */
  lemma WordsLead(s: string)
    requires s != [] && !IsSpace(s[0])
    ensures Words(s) == [LeadingWord(s)] + Words(s[|LeadingWord(s)|..])
  {
  }

  /** A white-space run at the front collapses into one `rep`. */
  lemma CollapseRun(s: string, rep: char)
    requires s != [] && IsSpace(s[0])
    ensures CollapseSpaces(s, rep) == [rep] + CollapseSpaces(TrimStart(s), rep)
  {
  }

  /** Cutting a string at `k` and putting the halves together gives it back. */
  lemma SliceJoin(s: string, k: nat)
    requires k <= |s|
    ensures s[..k] + s[k..] == s
  {
  }

  /** A single word collapses to itself and is its only word. */
  lemma CollapseOneWord(s: string, rep: char)
    requires s != [] && !IsSpace(s[0]) && s[|LeadingWord(s)|..] == []
    ensures CollapseSpaces(s, rep) == Unwords(Words(s), rep)
  {
    var w := LeadingWord(s);
    assert s == w;
    WordsLead(s);
    CollapseSpacesIdentity(w, rep);
  }

  /** A word followed by a white-space run collapses to the word, `rep`
      and the collapsed remainder. */
  lemma CollapseWordRun(s: string, rep: char)
    requires s != [] && !IsSpace(s[0])
    requires s[|LeadingWord(s)|..] != [] && IsSpace(s[|LeadingWord(s)|])
    ensures var w := LeadingWord(s);
            CollapseSpaces(s, rep) == w + [rep] + CollapseSpaces(TrimStart(s[|w|..]), rep)
  {
    var w := LeadingWord(s);
    var rest := s[|w|..];
    var tail := CollapseSpaces(TrimStart(rest), rep);
    calc {
      CollapseSpaces(s, rep);
    == { SliceJoin(s, |w|); }
      CollapseSpaces(w + rest, rep);
    == { CollapseSpacesPrefix(w, rest, rep); }
      w + CollapseSpaces(rest, rep);
    == { CollapseRun(rest, rep); }
      w + ([rep] + tail);
    == { assert w + ([rep] + tail) == w + [rep] + tail; }
      w + [rep] + tail;
    }
  }

  /** The words of such a string are its first word and the words after the run. */
  lemma WordsWordRun(s: string)
    requires s != [] && !IsSpace(s[0])
    ensures var w := LeadingWord(s);
            Words(s) == [w] + Words(TrimStart(s[|w|..]))
  {
    TrimStartWords(s[|LeadingWord(s)|..]);
    WordsLead(s);
  }

  /** The inductive step: a word, then a white-space run, then a string
      for which the claim holds. */
  lemma CollapseStep(s: string, rep: char)
    requires s != [] && !IsSpace(s[0])
    requires s[|LeadingWord(s)|..] != [] && IsSpace(s[|LeadingWord(s)|])
    requires var u := TrimStart(s[|LeadingWord(s)|..]);
             && u != [] && !IsSpace(u[0])
             && CollapseSpaces(u, rep) == Unwords(Words(u), rep)
    ensures CollapseSpaces(s, rep) == Unwords(Words(s), rep)
  {
    var w := LeadingWord(s);
    var u := TrimStart(s[|w|..]);
    CollapseWordRun(s, rep);
    WordsWordRun(s);
    WordsLead(u);
    UnwordsCons(w, Words(u), rep);
  }

  /** On a string without leading or trailing white space, collapsing
      each white-space run into `rep` joins the words with `rep`. */
  lemma {:induction false} CollapseTrimmed(s: string, rep: char)
    requires s == [] || (!IsSpace(s[0]) && !IsSpace(s[|s| - 1]))
    ensures CollapseSpaces(s, rep) == Unwords(Words(s), rep)
    decreases |s|
  {
    if s != [] {
      var rest := s[|LeadingWord(s)|..];
      TrimmedTail(s);
      if rest == [] {
        CollapseOneWord(s, rep);
      } else {
        CollapseTrimmed(TrimStart(rest), rep);
        CollapseStep(s, rep);
      }
    }
  }

  /** Leading white space removed, the words stay. */
  lemma TrimStartWords(s: string)
    ensures Words(TrimStart(s)) == Words(s)
  {
    var u := TrimStart(s);
    TrimStartDropsSpace(s);
    assert s == s[..|s| - |u|] + u;
    WordsSkipSpace(s[..|s| - |u|], u);
  }

  /** Trailing white space removed, the words stay. */
  lemma TrimEndWords(s: string)
    ensures Words(TrimEnd(s)) == Words(s)
  {
    var v := TrimEnd(s);
    TrimEndDropsSpace(s);
    assert s == v + s[|v|..];
    WordsDropSpace(v, s[|v|..]);
  }

  /** Trimming both ends leaves a string that starts and ends outside white
      space, and keeps the words. */
  lemma TrimBothEnds(s: string)
    ensures var v := Trim(s);
            && (v == [] || (!IsSpace(v[0]) && !IsSpace(v[|v| - 1])))
            && Words(v) == Words(s)
  {
    var u := TrimStart(s);
    var v := TrimEnd(u);
    assert v != [] ==> v[0] == u[0];
    TrimStartWords(s);
    TrimEndWords(u);
  }

  /** `s.trim().replace(/\s+/g, rep)` joins the words of `s` with `rep`. */
  lemma TrimCollapseWords(s: string, rep: char)
    ensures CollapseSpaces(Trim(s), rep) == Unwords(Words(s), rep)
  {
    TrimBothEnds(s);
    CollapseTrimmed(Trim(s), rep);
  }

  /** A single space-free word is its own only word. */
  lemma WordsOfWord(w: string)
    requires w != [] && NoSpace(w)
    ensures Words(w) == [w]
  {
    WordsLead(w);
    LeadingWordPrefix(w, []);
    assert w + [] == w;
  }

  /** Lower-casing works piece by piece. */
  lemma ToLowerAppend(a: string, b: string)
    ensures ToLower(a + b) == ToLower(a) + ToLower(b)
  {
    assert forall i :: 0 <= i < |a + b| ==> ToLower(a + b)[i] == (ToLower(a) + ToLower(b))[i];
  }

  /** Lower-casing leaves white space alone and introduces none. */
  lemma ToLowerSpaces(s: string)
    ensures AllSpace(s) ==> ToLower(s) == s
    ensures NoSpace(s) ==> NoSpace(ToLower(s))
  {
  }

  // ---------------------------------------------------------------------
  // Decimal digits: `n.toString()` for a natural number

  function DigitChar(d: nat): (c: char)
    requires d < 10
    ensures '0' <= c <= '9'
  {
    ('0' as int + d) as char
  }

  function DigitValue(c: char): nat
    requires '0' <= c <= '9'
  {
    c as int - '0' as int
  }

  function DecimalString(n: nat): (s: string)
    ensures |s| >= 1
    ensures forall i :: 0 <= i < |s| ==> '0' <= s[i] <= '9'
  {
    if n < 10 then [DigitChar(n)] else DecimalString(n / 10) + [DigitChar(n % 10)]
  }

  predicate AllDigits(s: string)
  {
    forall i :: 0 <= i < |s| ==> '0' <= s[i] <= '9'
  }

  /** The value of a string of decimal digits. */
  function DecimalValue(s: string): nat
    requires AllDigits(s)
  {
    if s == [] then 0 else 10 * DecimalValue(s[..|s| - 1]) + DigitValue(s[|s| - 1])
  }

  /** Reading the digits of `n` back gives `n`. */
  lemma {:induction false} DecimalRoundTrip(n: nat)
    ensures DecimalValue(DecimalString(n)) == n
  {
    var s := DecimalString(n);
    if n >= 10 {
      DecimalRoundTrip(n / 10);
      assert s[..|s| - 1] == DecimalString(n / 10);
    }
  }

  /** Numbers in [10^(k-1), 10^k) have exactly k digits; stated for six. */
  lemma {:induction false} SixDigits(n: nat)
    requires 100000 <= n <= 999999
    ensures |DecimalString(n)| == 6
  {
    var n1, n2, n3, n4, n5 := n / 10, n / 10 / 10, n / 10 / 10 / 10, n / 10 / 10 / 10 / 10, n / 10 / 10 / 10 / 10 / 10;
    assert 10000 <= n1 <= 99999;
    assert 1000 <= n2 <= 9999;
    assert 100 <= n3 <= 999;
    assert 10 <= n4 <= 99;
    assert 1 <= n5 <= 9;
    assert |DecimalString(n5)| == 1;
    assert |DecimalString(n4)| == 2;
    assert |DecimalString(n3)| == 3;
    assert |DecimalString(n2)| == 4;
    assert |DecimalString(n1)| == 5;
  }
}
