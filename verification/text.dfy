/** Text helpers used when an alert is composed: question cleanup, the market link and
    the title. */
module Text {
  import opened Wrappers

  /** Python's `str.isspace`, which is also what `\s` matches in a `str` pattern. */
  predicate IsSpace(c: char) {
    || '\t' <= c <= '\r'
    || '\U{1c}' <= c <= ' '
    || c == '\U{85}' || c == '\U{a0}' || c == '\U{1680}'
    || '\U{2000}' <= c <= '\U{200a}'
    || c == '\U{2028}' || c == '\U{2029}' || c == '\U{202f}' || c == '\U{205f}' || c == '\U{3000}'
  }

  predicate NoSpace(w: string) {
    forall k :: 0 <= k < |w| ==> !IsSpace(w[k])
  }

  /** The pattern `https?://\S+` matches at the start of `s`. */
  predicate UrlAt(s: string) {
    || (|s| > 7 && s[..7] == "http://" && !IsSpace(s[7]))
    || (|s| > 8 && s[..8] == "https://" && !IsSpace(s[8]))
  }

  /** No position of `s` starts a match of `https?://\S+`. */
  predicate NoUrl(s: string) {
    forall i :: 0 <= i < |s| ==> !UrlAt(s[i..])
  }

  /** The first whitespace position at or after `i`, or `|s|`. */
  function NextSpace(s: string, i: nat): (j: nat)
    requires i <= |s|
    ensures i <= j <= |s|
    ensures j < |s| ==> IsSpace(s[j])
    ensures forall k :: i <= k < j ==> !IsSpace(s[k])
    decreases |s| - i
  {
    if i == |s| || IsSpace(s[i]) then i else NextSpace(s, i + 1)
  }

  /** `NextSpace` finds the first whitespace: any `j` with none before it and whitespace
      (or the end) at it is the answer. */
  lemma NextSpaceIs(s: string, i: nat, j: nat)
    requires i <= j <= |s|
    requires forall k :: i <= k < j ==> !IsSpace(s[k])
    requires j < |s| ==> IsSpace(s[j])
    ensures NextSpace(s, i) == j
  {
    var r := NextSpace(s, i);
  }

  /** `re.sub(r'https?://[^\s]+', '', s)`: scanning left to right, each match (which
      runs greedily up to the next whitespace) is deleted and scanning resumes after it. */
  function StripUrls(s: string): string
    decreases |s|
  {
    if s == [] then []
    else if UrlAt(s) then StripUrls(s[NextSpace(s, 7)..])
    else [s[0]] + StripUrls(s[1..])
  }

  /** `s.split()`: the maximal runs of non-whitespace characters. */
  function Words(s: string): (ws: seq<string>)
    ensures forall w :: w in ws ==> w != [] && NoSpace(w)
    decreases |s|
  {
    if s == [] then []
    else if IsSpace(s[0]) then Words(s[1..])
    else
      var j := NextSpace(s, 0);
      [s[..j]] + Words(s[j..])
  }

  /** `' '.join(ws)`. */
  function Join(ws: seq<string>): string {
    if ws == [] then ""
    else if |ws| == 1 then ws[0]
    else ws[0] + " " + Join(ws[1..])
  }

  /** `s.lstrip()`. */
  function TrimStart(s: string): string
    decreases |s|
  {
    if s != [] && IsSpace(s[0]) then TrimStart(s[1..]) else s
  }

  /** `s.rstrip()`. */
  function TrimEnd(s: string): string
    decreases |s|
  {
    if s != [] && IsSpace(s[|s| - 1]) then TrimEnd(s[..|s| - 1]) else s
  }

  /** `lstrip` drops the leading whitespace: it leaves a suffix that does not start with
      whitespace, and everything it drops is whitespace. */
  lemma {:induction false} TrimStartIsSuffix(s: string)
    ensures var r := TrimStart(s);
      && |r| <= |s| && r == s[|s| - |r|..]
      && (r == [] || !IsSpace(r[0]))
      && forall k :: 0 <= k < |s| - |r| ==> IsSpace(s[k])
    decreases |s|
  {
    if s != [] && IsSpace(s[0]) {
      TrimStartIsSuffix(s[1..]);
    }
  }

  /** `rstrip` drops the trailing whitespace: it leaves a prefix that does not end with
      whitespace, and everything it drops is whitespace. */
  lemma {:induction false} TrimEndIsPrefix(s: string)
    ensures var r := TrimEnd(s);
      && |r| <= |s| && r == s[..|r|]
      && (r == [] || !IsSpace(r[|r| - 1]))
      && forall k :: |r| <= k < |s| ==> IsSpace(s[k])
    decreases |s|
  {
    if s != [] && IsSpace(s[|s| - 1]) {
      TrimEndIsPrefix(s[..|s| - 1]);
    }
  }

  /** `s.strip()`: no whitespace is left at either end, and a string without whitespace
      at its ends is returned as it is. */
  function Strip(s: string): (r: string)
    ensures NoEdgeSpace(r)
    ensures NoEdgeSpace(s) ==> r == s
  {
    TrimStartIsSuffix(s);
    TrimEndIsPrefix(TrimStart(s));
    TrimEnd(TrimStart(s))
  }

  /** `clean_question`: delete URLs, collapse whitespace, strip. */
  function CleanQuestion(q: string): string {
    Strip(Join(Words(StripUrls(q))))
  }

  predicate NoEdgeSpace(s: string) {
    s == [] || (!IsSpace(s[0]) && !IsSpace(s[|s| - 1]))
  }

  predicate NoDoubleSpace(s: string) {
    forall k :: 0 <= k < |s| - 1 ==> !IsSpace(s[k]) || !IsSpace(s[k + 1])
  }

  /** Every whitespace character left is a plain space. */
  predicate PlainSpaces(s: string) {
    forall k :: 0 <= k < |s| && IsSpace(s[k]) ==> s[k] == ' '
  }

  // ----- URL occurrences -----

  /** How many leading characters a match at the start of `s` needs to be recognised. */
  function UrlSpan(s: string): nat {
    if |s| > 7 && s[..7] == "http://" && !IsSpace(s[7]) then 8 else 9
  }

  lemma UrlAtShape(s: string)
    requires UrlAt(s)
    ensures UrlSpan(s) <= |s|
    ensures forall k :: 0 <= k < UrlSpan(s) ==> !IsSpace(s[k])
    ensures s[0] == 'h'
  {
    if |s| > 7 && s[..7] == "http://" && !IsSpace(s[7]) {
      assert forall k :: 0 <= k < 7 ==> s[k] == "http://"[k];
    } else {
      assert forall k :: 0 <= k < 8 ==> s[k] == "https://"[k];
    }
  }

  /** A whitespace position lies at or after a run of `m` non-whitespace characters. */
  lemma SpaceAfterSpan(x: string, m: nat, p: nat)
    requires m <= |x| && forall k :: 0 <= k < m ==> !IsSpace(x[k])
    requires p < |x| && IsSpace(x[p])
    ensures m <= p
  {
  }

  lemma UrlAtPrefix(x: string, y: string, n: nat)
    requires UrlAt(x) && UrlSpan(x) <= n <= |x| && n <= |y| && x[..n] == y[..n]
    ensures UrlAt(y)
  {
    assert forall k :: 0 <= k < n ==> x[k] == y[k] by {
      forall k | 0 <= k < n ensures x[k] == y[k] {
        assert x[..n][k] == y[..n][k];
      }
    }
    if |x| > 7 && x[..7] == "http://" && !IsSpace(x[7]) {
      assert y[..7] == x[..7];
    } else {
      assert y[..8] == x[..8];
    }
  }

  lemma NoUrlSuffix(s: string, n: nat)
    requires NoUrl(s) && n <= |s|
    ensures NoUrl(s[n..])
  {
    forall i | 0 <= i < |s[n..]| ensures !UrlAt(s[n..][i..]) {
      assert s[n..][i..] == s[n + i..];
    }
  }

  lemma NoUrlPrefix(s: string, n: nat)
    requires NoUrl(s) && n <= |s|
    ensures NoUrl(s[..n])
  {
    var p := s[..n];
    forall i | 0 <= i < |p| ensures !UrlAt(p[i..]) {
      if UrlAt(p[i..]) {
        UrlAtShape(p[i..]);
        var m := UrlSpan(p[i..]);
        assert p[i..][..m] == s[i..][..m];
        UrlAtPrefix(p[i..], s[i..], m);
        assert false;
      }
    }
  }

  /** Two URL-free strings joined by one whitespace character stay URL-free: a match
      never spans whitespace. */
  lemma NoUrlAroundSpace(a: string, c: char, b: string)
    requires NoUrl(a) && NoUrl(b) && IsSpace(c)
    ensures NoUrl(a + [c] + b)
  {
    var s := a + [c] + b;
    forall i | 0 <= i < |s| ensures !UrlAt(s[i..]) {
      if i > |a| {
        assert s[i..] == b[i - |a| - 1..];
      } else if UrlAt(s[i..]) {
        UrlAtShape(s[i..]);
        var m := UrlSpan(s[i..]);
        if i == |a| {
          assert false;
        } else {
          assert s[i..][|a| - i] == c;
          SpaceAfterSpan(s[i..], m, |a| - i);
          assert a[i..][..m] == s[i..][..m];
          UrlAtPrefix(s[i..], a[i..], m);
          assert false;
        }
      }
    }
  }

  /** What is left after a deleted URL starts with the whitespace that ended it. */
  lemma StripAfterUrl(u: string)
    requires u != [] && UrlAt(u)
    ensures StripUrls(u) == [] || IsSpace(StripUrls(u)[0])
  {
    var w := u[NextSpace(u, 7)..];
    if w != [] {
      assert IsSpace(w[0]);
      assert !UrlAt(w) by {
        if UrlAt(w) {
          UrlAtShape(w);
        }
      }
      assert StripUrls(u) == StripUrls(w) == [w[0]] + StripUrls(w[1..]);
    }
  }

  /** While the result of `StripUrls(u)` has no whitespace, it is `u` unchanged: a
      deletion always ends at whitespace or at the end. */
  lemma {:induction false} StripKeepsLeadingWord(u: string, k: nat)
    requires k <= |StripUrls(u)|
    requires forall j :: 0 <= j < k ==> !IsSpace(StripUrls(u)[j])
    ensures k <= |u| && StripUrls(u)[..k] == u[..k]
    decreases |u|
  {
    if u == [] {
    } else if UrlAt(u) {
      StripAfterUrl(u);
    } else if k > 0 {
      var t := StripUrls(u[1..]);
      assert StripUrls(u) == [u[0]] + t;
      forall j | 0 <= j < k - 1 ensures !IsSpace(t[j]) {
        assert t[j] == StripUrls(u)[j + 1];
      }
      StripKeepsLeadingWord(u[1..], k - 1);
      assert StripUrls(u)[..k] == [u[0]] + t[..k - 1];
    }
  }

  /** Where no URL starts, none starts after the deletions either. */
  lemma ConsStaysUrlFree(c: char, u: string)
    requires !UrlAt([c] + u)
    ensures !UrlAt([c] + StripUrls(u))
  {
    var t := StripUrls(u);
    var r := [c] + t;
    if UrlAt(r) {
      UrlAtShape(r);
      var m := UrlSpan(r);
      forall j | 0 <= j < m - 1 ensures !IsSpace(t[j]) {
        assert t[j] == r[j + 1];
      }
      StripKeepsLeadingWord(u, m - 1);
      assert r[..m] == [c] + t[..m - 1];
      assert ([c] + u)[..m] == [c] + u[..m - 1];
      UrlAtPrefix(r, [c] + u, m);
      assert false;
    }
  }

  /** Deleting URLs leaves none behind, not even one formed by joining the pieces. */
  lemma {:induction false} StripUrlsLeavesNoUrl(s: string)
    ensures NoUrl(StripUrls(s))
    decreases |s|
  {
    if s == [] {
    } else if UrlAt(s) {
      StripUrlsLeavesNoUrl(s[NextSpace(s, 7)..]);
    } else {
      var t := StripUrls(s[1..]);
      var r := StripUrls(s);
      StripUrlsLeavesNoUrl(s[1..]);
      assert r == [s[0]] + t;
      assert s == [s[0]] + s[1..];
      ConsStaysUrlFree(s[0], s[1..]);
      forall i | 0 <= i < |r| ensures !UrlAt(r[i..]) {
        if i > 0 {
          assert r[i..] == t[i - 1..];
        }
      }
    }
  }

  /** Text without URLs passes through `StripUrls` unchanged. */
  lemma {:induction false} StripUrlsWithoutUrl(s: string)
    requires NoUrl(s)
    ensures StripUrls(s) == s
    decreases |s|
  {
    if s != [] {
      assert !UrlAt(s[0..]);
      assert s[0..] == s;
      NoUrlSuffix(s, 1);
      StripUrlsWithoutUrl(s[1..]);
    }
  }

  // ----- Splitting and joining -----

  lemma {:induction false} WordsKeepNoUrl(s: string)
    requires NoUrl(s)
    ensures forall w :: w in Words(s) ==> NoUrl(w)
    decreases |s|
  {
    if s == [] {
    } else if IsSpace(s[0]) {
      NoUrlSuffix(s, 1);
      WordsKeepNoUrl(s[1..]);
    } else {
      var j := NextSpace(s, 0);
      NoUrlPrefix(s, j);
      NoUrlSuffix(s, j);
      WordsKeepNoUrl(s[j..]);
    }
  }

  lemma {:induction false} JoinNormalised(ws: seq<string>)
    requires forall w :: w in ws ==> w != [] && NoSpace(w)
    ensures NoEdgeSpace(Join(ws)) && NoDoubleSpace(Join(ws)) && PlainSpaces(Join(ws))
    ensures ws != [] ==> Join(ws) != []
    decreases |ws|
  {
    if |ws| == 1 {
      assert ws[0] in ws;
    } else if |ws| >= 2 {
      var a, b := ws[0], Join(ws[1..]);
      assert a in ws;
      assert forall w :: w in ws[1..] ==> w in ws;
      JoinNormalised(ws[1..]);
      var s := a + " " + b;
      assert Join(ws) == s;
      forall k | 0 <= k < |s| && IsSpace(s[k]) ensures s[k] == ' ' {
        if k > |a| {
          assert s[k] == b[k - |a| - 1];
        }
      }
      forall k | 0 <= k < |s| - 1 ensures !IsSpace(s[k]) || !IsSpace(s[k + 1]) {
        if k > |a| {
          assert s[k] == b[k - |a| - 1] && s[k + 1] == b[k - |a|];
        } else if k == |a| {
          assert s[k + 1] == b[0];
        }
      }
      assert s[|s| - 1] == b[|b| - 1];
    }
  }

  lemma {:induction false} JoinKeepsNoUrl(ws: seq<string>)
    requires forall w :: w in ws ==> NoUrl(w)
    ensures NoUrl(Join(ws))
    decreases |ws|
  {
    if |ws| >= 2 {
      JoinKeepsNoUrl(ws[1..]);
      NoUrlAroundSpace(ws[0], ' ', Join(ws[1..]));
      assert Join(ws) == ws[0] + [' '] + Join(ws[1..]);
    }
  }

  /** A leading word followed by nothing or by a space splits off as the first word. */
  lemma WordsOfCons(a: string, rest: string)
    requires a != [] && NoSpace(a)
    requires rest == [] || rest[0] == ' '
    ensures Words(a + rest) == [a] + Words(rest)
  {
    var s := a + rest;
    assert forall k :: 0 <= k < |a| ==> s[k] == a[k];
    assert |a| < |s| ==> s[|a|] == ' ';
    NextSpaceIs(s, 0, |a|);
    assert s[..|a|] == a && s[|a|..] == rest;
  }

  /** Splitting a string of single-space-separated words gives those words back. */
  lemma {:induction false} WordsOfJoin(ws: seq<string>)
    requires forall w :: w in ws ==> w != [] && NoSpace(w)
    ensures Words(Join(ws)) == ws
    decreases |ws|
  {
    if ws != [] {
      var a := ws[0];
      assert a in ws;
      if |ws| == 1 {
        WordsOfCons(a, "");
        assert a + "" == a;
      } else {
        var tail := Join(ws[1..]);
        assert forall w :: w in ws[1..] ==> w in ws;
        WordsOfJoin(ws[1..]);
        WordsOfCons(a, " " + tail);
        assert (" " + tail)[1..] == tail;
        assert Join(ws) == a + (" " + tail);
      }
    }
  }

  lemma StripNoEdgeSpace(s: string)
    requires NoEdgeSpace(s)
    ensures Strip(s) == s
  {
  }

  // ----- What the deletion and the split keep -----

  /** A match starts at `a + [c] + b`, for whitespace `c`, exactly when one starts at `a`:
      a match never reaches past whitespace. */
  lemma UrlAtBeforeSpace(a: string, c: char, b: string)
    requires IsSpace(c)
    ensures UrlAt(a + [c] + b) <==> UrlAt(a)
  {
    var x := a + [c] + b;
    if UrlAt(x) {
      UrlAtShape(x);
      assert x[|a|] == c;
      SpaceAfterSpan(x, UrlSpan(x), |a|);
      assert x[..UrlSpan(x)] == a[..UrlSpan(x)];
      UrlAtPrefix(x, a, UrlSpan(x));
    }
    if UrlAt(a) {
      UrlAtShape(a);
      assert x[..UrlSpan(a)] == a[..UrlSpan(a)];
      UrlAtPrefix(a, x, UrlSpan(a));
    }
  }

  /** A match that starts in `a` ends in `a`, before the whitespace that follows it,
      so deleting it from `a + [c] + b` leaves the same rest as deleting it from `a`. */
  lemma SkipUrlBeforeSpace(a: string, c: char, b: string)
    requires IsSpace(c) && UrlAt(a)
    ensures var e := NextSpace(a, 7);
      StripUrls(a + [c] + b) == StripUrls(a[e..] + [c] + b) && StripUrls(a) == StripUrls(a[e..])
  {
    var x := a + [c] + b;
    var e := NextSpace(a, 7);
    UrlAtBeforeSpace(a, c, b);
    assert forall k :: 7 <= k < e ==> x[k] == a[k];
    assert e < |a| ==> x[e] == a[e];
    assert e == |a| ==> x[e] == c;
    NextSpaceIs(x, 7, e);
    assert x[e..] == a[e..] + [c] + b;
  }

  /** A character where no match starts is kept in `a + [c] + b` as in `a`. */
  lemma KeepCharBeforeSpace(a: string, c: char, b: string)
    requires IsSpace(c) && a != [] && !UrlAt(a)
    ensures StripUrls(a + [c] + b) == [a[0]] + StripUrls(a[1..] + [c] + b)
    ensures StripUrls(a) == [a[0]] + StripUrls(a[1..])
  {
    var x := a + [c] + b;
    UrlAtBeforeSpace(a, c, b);
    assert x[0] == a[0] && x[1..] == a[1..] + [c] + b;
  }

  /** The whitespace itself starts no match and is kept. */
  lemma KeepSpace(c: char, b: string)
    requires IsSpace(c)
    ensures StripUrls([c] + b) == [c] + StripUrls(b)
  {
    var x := [c] + b;
    assert !UrlAt(x) by {
      if UrlAt(x) {
        UrlAtShape(x);
      }
    }
    assert x[1..] == b;
  }

  /** A deletion never crosses whitespace: the text on either side of a whitespace
      character is cleaned on its own, and the whitespace is kept. */
  lemma {:induction false} StripUrlsAroundSpace(a: string, c: char, b: string)
    requires IsSpace(c)
    ensures StripUrls(a + [c] + b) == StripUrls(a) + [c] + StripUrls(b)
    decreases |a|
  {
    if a == [] {
      assert a + [c] + b == [c] + b;
      KeepSpace(c, b);
    } else if UrlAt(a) {
      SkipUrlBeforeSpace(a, c, b);
      StripUrlsAroundSpace(a[NextSpace(a, 7)..], c, b);
    } else {
      KeepCharBeforeSpace(a, c, b);
      StripUrlsAroundSpace(a[1..], c, b);
    }
  }

  /** The first position of `w` where a match starts, or `|w|`. */
  function FirstUrl(w: string): (i: nat)
    ensures i <= |w|
    ensures i < |w| ==> UrlAt(w[i..])
    ensures forall k :: 0 <= k < i ==> !UrlAt(w[k..])
    decreases |w|
  {
    if w == [] || UrlAt(w) then 0
    else
      var i := 1 + FirstUrl(w[1..]);
      assert forall k :: 1 <= k <= |w| ==> w[k..] == w[1..][k - 1..];
      i
  }

  /** Within one whitespace-free run, everything before the first URL is kept and
      everything from it on is deleted. */
  lemma {:induction false} StripUrlsInWord(w: string)
    requires NoSpace(w)
    ensures StripUrls(w) == w[..FirstUrl(w)]
    decreases |w|
  {
    if w == [] {
    } else if UrlAt(w) {
      NextSpaceIs(w, 7, |w|);
      assert w[|w|..] == [];
    } else {
      StripUrlsInWord(w[1..]);
      assert w[..FirstUrl(w)] == [w[0]] + w[1..][..FirstUrl(w[1..])];
    }
  }

  /** The characters of the words, in order and run together. */
  function Concat(ws: seq<string>): string {
    if ws == [] then [] else ws[0] + Concat(ws[1..])
  }

  /** `s` with its whitespace removed. */
  function NonSpace(s: string): string {
    if s == [] then [] else (if IsSpace(s[0]) then [] else [s[0]]) + NonSpace(s[1..])
  }

  lemma {:induction false} NonSpaceOfWord(w: string, rest: string)
    requires NoSpace(w)
    ensures NonSpace(w + rest) == w + NonSpace(rest)
    decreases |w|
  {
    if w != [] {
      assert (w + rest)[1..] == w[1..] + rest;
      NonSpaceOfWord(w[1..], rest);
    } else {
      assert w + rest == rest;
    }
  }

  /** The words hold exactly the non-whitespace characters of the input, in order. */
  lemma {:induction false} WordsKeepEveryCharacter(s: string)
    ensures Concat(Words(s)) == NonSpace(s)
    decreases |s|
  {
    if s == [] {
    } else if IsSpace(s[0]) {
      WordsKeepEveryCharacter(s[1..]);
    } else {
      var j := NextSpace(s, 0);
      WordsKeepEveryCharacter(s[j..]);
      assert s == s[..j] + s[j..];
      NonSpaceOfWord(s[..j], s[j..]);
      assert Words(s) == [s[..j]] + Words(s[j..]);
      assert ([s[..j]] + Words(s[j..]))[1..] == Words(s[j..]);
    }
  }

  /** Leading whitespace of `a` is skipped in `a + [c] + b` as in `a`. */
  lemma SpaceBeforeSpace(a: string, c: char, b: string)
    requires a != [] && IsSpace(a[0])
    ensures Words(a + [c] + b) == Words(a[1..] + [c] + b)
  {
    var x := a + [c] + b;
    assert x[0] == a[0] && x[1..] == a[1..] + [c] + b;
  }

  /** A word that starts `a` ends in `a`, before the whitespace that follows it. */
  lemma WordBeforeSpace(a: string, c: char, b: string)
    requires IsSpace(c) && a != [] && !IsSpace(a[0])
    ensures var j := NextSpace(a, 0);
      && Words(a + [c] + b) == [a[..j]] + Words(a[j..] + [c] + b)
      && Words(a) == [a[..j]] + Words(a[j..])
  {
    var x := a + [c] + b;
    var j := NextSpace(a, 0);
    assert forall k :: 0 <= k < j ==> x[k] == a[k];
    assert j < |a| ==> x[j] == a[j];
    assert j == |a| ==> x[j] == c;
    NextSpaceIs(x, 0, j);
    assert x[..j] == a[..j];
    assert x[j..] == a[j..] + [c] + b;
  }

  /** Splitting at a whitespace character splits the word list there: a word never
      spans whitespace. */
  lemma {:induction false} WordsAroundSpace(a: string, c: char, b: string)
    requires IsSpace(c)
    ensures Words(a + [c] + b) == Words(a) + Words(b)
    decreases |a|
  {
    if a == [] {
      var x := a + [c] + b;
      assert x[0] == c && x[1..] == b;
    } else if IsSpace(a[0]) {
      SpaceBeforeSpace(a, c, b);
      WordsAroundSpace(a[1..], c, b);
    } else {
      WordBeforeSpace(a, c, b);
      WordsAroundSpace(a[NextSpace(a, 0)..], c, b);
    }
  }

  /** A non-empty run without whitespace is one word. */
  lemma WordsOfWord(w: string)
    requires w != [] && NoSpace(w)
    ensures Words(w) == [w]
  {
    NextSpaceIs(w, 0, |w|);
    assert w[..|w|] == w && w[|w|..] == [];
  }

  // ----- Properties of clean_question -----

  /** The cleaned question has no leading or trailing whitespace, no two whitespace
      characters in a row, only plain spaces between words, and no URL. */
  lemma CleanQuestionNormalised(q: string)
    ensures var r := CleanQuestion(q);
      NoEdgeSpace(r) && NoDoubleSpace(r) && PlainSpaces(r) && NoUrl(r)
  {
    var u := StripUrls(q);
    StripUrlsLeavesNoUrl(q);
    WordsKeepNoUrl(u);
    JoinKeepsNoUrl(Words(u));
    JoinNormalised(Words(u));
    StripNoEdgeSpace(Join(Words(u)));
  }

  /** Text without URLs whose words rebuild it is left as it is by cleaning. */
  lemma CleanFixesRebuiltText(c: string, ws: seq<string>)
    requires NoUrl(c) && Words(c) == ws && c == Strip(Join(ws))
    ensures CleanQuestion(c) == c
  {
    StripUrlsWithoutUrl(c);
  }

  /** Cleaning twice is cleaning once. */
  lemma CleanQuestionIdempotent(q: string)
    ensures CleanQuestion(CleanQuestion(q)) == CleanQuestion(q)
  {
    CleanQuestionNormalised(q);
    CleanQuestionKeepsWords(q);
    CleanFixesRebuiltText(CleanQuestion(q), Words(StripUrls(q)));
  }

  /** The cleaned question consists of exactly the words left after deleting the URLs. */
  lemma CleanQuestionKeepsWords(q: string)
    ensures Words(CleanQuestion(q)) == Words(StripUrls(q))
  {
    var ws := Words(StripUrls(q));
    JoinNormalised(ws);
    StripNoEdgeSpace(Join(ws));
    WordsOfJoin(ws);
  }

  /** On text without URLs, cleaning only normalises the whitespace. */
  lemma CleanQuestionWithoutUrls(q: string)
    requires NoUrl(q)
    ensures CleanQuestion(q) == Join(Words(q))
  {
    StripUrlsWithoutUrl(q);
    JoinNormalised(Words(q));
    StripNoEdgeSpace(Join(Words(q)));
  }

  // ----- Link and title -----

  /** The Polymarket site root, which every generated link starts with. */
  const SiteRoot := "https://polymarket.com"

  const EventPrefix := SiteRoot + "/event/"

  function Referral(code: string): string {
    "?via=" + code
  }

  /** `generate_market_link`: the event page when the slug is present and non-empty,
      the site root otherwise; both carry the referral code. */
  function MarketLink(slug: Option<string>, code: string): (link: string)
    ensures |link| >= |Referral(code)| && link[|link| - |Referral(code)|..] == Referral(code)
    ensures |link| >= |SiteRoot| && link[..|SiteRoot|] == SiteRoot
    ensures !(slug.Some? && slug.value != "") ==> link == SiteRoot + Referral(code)
  {
    if slug.Some? && slug.value != "" then EventPrefix + slug.value + Referral(code)
    else SiteRoot + Referral(code)
  }

  /** Reads the slug back out of an event link. */
  function LinkSlug(link: string, code: string): Option<string> {
    var tail := Referral(code);
    if |link| >= |EventPrefix| + |tail| && link[..|EventPrefix|] == EventPrefix
       && link[|link| - |tail|..] == tail
    then Some(link[|EventPrefix|..|link| - |tail|])
    else None
  }

  /** The slug can be read back from the link, and the fallback link is never taken for
      an event link. */
  lemma LinkRoundTrip(slug: Option<string>, code: string)
    ensures LinkSlug(MarketLink(slug, code), code) ==
      if slug.Some? && slug.value != "" then slug else None
  {
    var link := MarketLink(slug, code);
    if slug.Some? && slug.value != "" {
      assert link[..|EventPrefix|] == EventPrefix;
      assert link[|EventPrefix|..|link| - |Referral(code)|] == slug.value;
    } else {
      assert |link| < |EventPrefix| + |Referral(code)|;
    }
  }

  /** The alert title: the cleaned question, followed by `" - "` and the group title
      when that is present and non-empty. */
  function Title(cleanQ: string, group: Option<string>): (t: string)
    ensures |t| >= |cleanQ| && t[..|cleanQ|] == cleanQ
    ensures group.Some? && group.value != "" ==> t[|cleanQ|..] == " - " + group.value
    ensures !(group.Some? && group.value != "") ==> t == cleanQ
  {
    if group.Some? && group.value != "" then cleanQ + " - " + group.value else cleanQ
  }
}
