/** Rewriting of inline user mentions in message text.

    The plugin replaces every match of the regular expression `<@[^>]+>` by
    "@" followed by the mentioned user's real name, or by "@Error" when that
    user cannot be looked up.  Matches are found the way Go's regexp package
    finds them for ReplaceAllStringFunc: leftmost first, without overlap.
    Go compiles the expression with Perl flags, so `[^>]` also matches a
    newline: a match is "<@", one or more characters other than '>', and '>'. */
module Mentions {
  import opened Slack

  /** The characters `strings.Trim` strips from a match to get the user id. */
  const MARKERS: set<char> := {'<', '@', '>'}

  /** The replacement used when the mentioned user cannot be looked up. */
  const ERROR_MENTION := "@Error"

  /** t is, as a whole, a match of `<@[^>]+>`. */
  predicate IsMention(t: string)
  {
    |t| >= 4 && t[0] == '<' && t[1] == '@' && t[|t| - 1] == '>' &&
    forall k :: 2 <= k < |t| - 1 ==> t[k] != '>'
  }

  /** No substring of s matches `<@[^>]+>`. */
  predicate MentionFree(s: string)
  {
    forall i, j {:trigger IsMention(s[i..j])} :: 0 <= i <= j <= |s| ==> !IsMention(s[i..j])
  }

  /** The first index at or after `from` holding '>'. */
  function CloseFrom(s: string, from: nat): (r: Option<nat>)
    requires from <= |s|
    ensures r.Some? ==> from <= r.value < |s| && s[r.value] == '>'
    ensures r.Some? ==> forall k :: from <= k < r.value ==> s[k] != '>'
    ensures r.None? ==> forall k :: from <= k < |s| ==> s[k] != '>'
    decreases |s| - from
  {
    if from == |s| then None
    else if s[from] == '>' then Some(from)
    else CloseFrom(s, from + 1)
  }

  /** The length of the match that starts at the beginning of s, if any.
      A prefix of s is a match exactly when its length is the one returned. */
  function MatchAt(s: string): (r: Option<nat>)
    ensures r.Some? ==> r.value <= |s| && IsMention(s[..r.value])
    ensures r.Some? ==> forall n {:trigger IsMention(s[..n])} :: 0 <= n <= |s| && IsMention(s[..n]) ==> n == r.value
    ensures r.None? ==> forall n {:trigger IsMention(s[..n])} :: 0 <= n <= |s| ==> !IsMention(s[..n])
  {
    if |s| >= 3 && s[0] == '<' && s[1] == '@' && s[2] != '>' then
      match CloseFrom(s, 3)
      case Some(j) =>
        var t := s[..j + 1];
        assert forall k :: 2 <= k < j ==> t[k] != '>';
        Some(j + 1)
      case None => None
    else
      None
  }

  /** `strings.TrimLeft`: drop the leading characters that are in cut. */
  function TrimLeft(s: string, cut: set<char>): string
  {
    if s != [] && s[0] in cut then TrimLeft(s[1..], cut) else s
  }

  /** `strings.TrimRight`: drop the trailing characters that are in cut. */
  function TrimRight(s: string, cut: set<char>): string
  {
    if s != [] && s[|s| - 1] in cut then TrimRight(s[..|s| - 1], cut) else s
  }

  /** `strings.Trim`: drop the leading and trailing characters that are in cut. */
  function Trim(s: string, cut: set<char>): string
  {
    TrimRight(TrimLeft(s, cut), cut)
  }

  /** TrimLeft leaves a suffix of s that does not start with a cut character,
      and everything it dropped is in cut. */
  lemma {:induction false} TrimLeftSpec(s: string, cut: set<char>)
    ensures var r := TrimLeft(s, cut);
      |r| <= |s| && r == s[|s| - |r|..] &&
      (forall k :: 0 <= k < |s| - |r| ==> s[k] in cut) &&
      (r != [] ==> r[0] !in cut)
    decreases |s|
  {
    if s != [] && s[0] in cut {
      TrimLeftSpec(s[1..], cut);
      var r := TrimLeft(s, cut);
      assert s[1..][|s| - 1 - |r|..] == s[|s| - |r|..];
      forall k | 0 <= k < |s| - |r| ensures s[k] in cut {
        if k > 0 { assert s[k] == s[1..][k - 1]; }
      }
    }
  }

  /** TrimRight leaves a prefix of s that does not end with a cut character,
      and everything it dropped is in cut. */
  lemma {:induction false} TrimRightSpec(s: string, cut: set<char>)
    ensures var r := TrimRight(s, cut);
      |r| <= |s| && r == s[..|r|] &&
      (forall k :: |r| <= k < |s| ==> s[k] in cut) &&
      (r != [] ==> r[|r| - 1] !in cut)
    decreases |s|
  {
    if s != [] && s[|s| - 1] in cut {
      var p := s[..|s| - 1];
      TrimRightSpec(p, cut);
      var r := TrimRight(s, cut);
      assert p[..|r|] == s[..|r|];
      forall k | |r| <= k < |s| ensures s[k] in cut {
        if k < |s| - 1 { assert s[k] == p[k]; }
      }
    }
  }

  /** r is the piece of s starting at a, and everything of s before and after
      that piece is in cut. */
  predicate StrippedAt(s: string, cut: set<char>, a: nat, r: string)
  {
    a + |r| <= |s| && s[a..a + |r|] == r &&
    (forall k :: 0 <= k < a ==> s[k] in cut) &&
    (forall k :: a + |r| <= k < |s| ==> s[k] in cut)
  }

  /** Trim removes exactly a leading and a trailing run of cut characters:
      what is left neither starts nor ends with one, and it is empty exactly
      when every character of s is in cut. */
  lemma TrimSpec(s: string, cut: set<char>)
    ensures exists a: nat :: StrippedAt(s, cut, a, Trim(s, cut))
    ensures var r := Trim(s, cut); r != [] ==> r[0] !in cut && r[|r| - 1] !in cut
    ensures Trim(s, cut) == [] <==> forall k :: 0 <= k < |s| ==> s[k] in cut
  {
    var left := TrimLeft(s, cut);
    var r := TrimRight(left, cut);
    TrimLeftSpec(s, cut);
    TrimRightSpec(left, cut);
    var a: nat := |s| - |left|;
    assert StrippedAt(s, cut, a, Trim(s, cut)) by {
      assert s[a..][..|r|] == s[a..a + |r|];
      forall k | a + |r| <= k < |s| ensures s[k] in cut {
        assert s[k] == left[k - a];
      }
    }
    if r != [] {
      assert r == left[..|r|];
      assert r[0] == left[0] && left[0] !in cut;
      assert s[a] == r[0];
    }
  }

  /** The user id of a match: the match with every leading and trailing
      '<', '@' and '>' removed. */
  function MentionId(m: string): string
  {
    Trim(m, MARKERS)
  }

  /** `mentionRe.ReplaceAllStringFunc(s, repl)`: every match, leftmost first
      and without overlap, is replaced by what repl returns for it. */
  function ReplaceAll(s: string, repl: string -> string): string
    decreases |s|
  {
    if s == [] then []
    else
      match MatchAt(s)
      case Some(n) => repl(s[..n]) + ReplaceAll(s[n..], repl)
      case None => [s[0]] + ReplaceAll(s[1..], repl)
  }

  /** Rewriting one step: a string that does not start with a match keeps
      its first character. */
  lemma ReplaceAllKeepsFirst(repl: string -> string, s: string)
    requires s != []
    requires forall n :: 0 <= n <= |s| ==> !IsMention(s[0..n])
    ensures ReplaceAll(s, repl) == [s[0]] + ReplaceAll(s[1..], repl)
  {
    forall n | 0 <= n <= |s| ensures !IsMention(s[..n]) {
      assert s[..n] == s[0..n];
    }
  }

  /** Rewriting one step: a match at the front is replaced as a whole. */
  lemma ReplaceAllReplacesFirst(repl: string -> string, s: string, j: nat)
    requires j <= |s| && IsMention(s[0..j])
    ensures ReplaceAll(s, repl) == repl(s[0..j]) + ReplaceAll(s[j..], repl)
  {
    assert s[..j] == s[0..j];
  }

  lemma MentionFreeTail(s: string)
    requires s != [] && MentionFree(s)
    ensures MentionFree(s[1..])
    ensures forall n :: 0 <= n <= |s| ==> !IsMention(s[0..n])
  {
    var t := s[1..];
    forall i, j | 0 <= i <= j <= |t| ensures !IsMention(t[i..j]) {
      assert t[i..j] == s[i + 1..j + 1];
    }
  }

  /** Text without any match is returned unchanged. */
  lemma {:induction false} ReplaceAllMentionFree(repl: string -> string, s: string)
    requires MentionFree(s)
    ensures ReplaceAll(s, repl) == s
    decreases |s|
  {
    if s != [] {
      MentionFreeTail(s);
      ReplaceAllKeepsFirst(repl, s);
      ReplaceAllMentionFree(repl, s[1..]);
      assert s == [s[0]] + s[1..];
    }
  }

  /** Replacing every match by itself gives back the text: matches are cut
      out and put back at the very place they were found. */
  lemma {:induction false} ReplaceAllIdentity(s: string)
    ensures ReplaceAll(s, m => m) == s
    decreases |s|
  {
    if s != [] {
      match MatchAt(s)
      case Some(n) =>
        ReplaceAllIdentity(s[n..]);
        assert s[..n] + s[n..] == s;
      case None =>
        ReplaceAllIdentity(s[1..]);
        assert [s[0]] + s[1..] == s;
    }
  }

  /** No match of s starts before index i. */
  predicate NoMatchBefore(s: string, i: nat)
  {
    forall i', j' {:trigger IsMention(s[i'..j'])} :: 0 <= i' < i && i' <= j' <= |s| ==> !IsMention(s[i'..j'])
  }

  lemma NoMatchBeforeTail(s: string, i: nat)
    requires 0 < i <= |s| && NoMatchBefore(s, i)
    ensures NoMatchBefore(s[1..], i - 1)
    ensures forall n :: 0 <= n <= |s| ==> !IsMention(s[0..n])
  {
    var t := s[1..];
    forall i', j' | 0 <= i' < i - 1 && i' <= j' <= |t| ensures !IsMention(t[i'..j']) {
      assert t[i'..j'] == s[i' + 1..j' + 1];
    }
  }

  lemma ConcatAssoc(a: string, b: string, c: string, d: string)
    ensures a + (b + c + d) == (a + b) + c + d
  {
  }

  lemma TailSlices(s: string, i: nat, j: nat)
    requires 0 < i <= j <= |s|
    ensures s[1..][i - 1..j - 1] == s[i..j] && s[1..][j - 1..] == s[j..]
    ensures s[..i] == [s[0]] + s[1..][..i - 1]
  {
  }

  /** The leftmost match s[i..j] is replaced on its own: the text before it is
      kept as it is, and rewriting resumes right after it (no overlap). */
  lemma {:induction false} ReplaceAllLeftmost(repl: string -> string, s: string, i: nat, j: nat)
    requires i <= j <= |s| && IsMention(s[i..j])
    requires NoMatchBefore(s, i)
    ensures ReplaceAll(s, repl) == s[..i] + repl(s[i..j]) + ReplaceAll(s[j..], repl)
    decreases i
  {
    if i == 0 {
      ReplaceAllReplacesFirst(repl, s, j);
      assert s[..i] == [];
    } else {
      NoMatchBeforeTail(s, i);
      ReplaceAllKeepsFirst(repl, s);
      TailSlices(s, i, j);
      var t := s[1..];
      ReplaceAllLeftmost(repl, t, i - 1, j - 1);
      var rest := ReplaceAll(s[j..], repl);
      var rep := repl(s[i..j]);
      calc {
        ReplaceAll(s, repl);
        [s[0]] + ReplaceAll(t, repl);
        [s[0]] + (t[..i - 1] + rep + rest);
        { ConcatAssoc([s[0]], t[..i - 1], rep, rest); }
        ([s[0]] + t[..i - 1]) + rep + rest;
        s[..i] + rep + rest;
      }
    }
  }

  /** Text with no '<' before a match is kept in front of the rewritten rest. */
  lemma {:induction false} ReplaceAllPlainPrefix(repl: string -> string, p: string, s: string)
    requires forall k :: 0 <= k < |p| ==> p[k] != '<'
    ensures ReplaceAll(p + s, repl) == p + ReplaceAll(s, repl)
    decreases |p|
  {
    if p != [] {
      var ps := p + s;
      assert ps[0] == p[0];
      ReplaceAllKeepsFirst(repl, ps);
      assert ps[1..] == p[1..] + s;
      ReplaceAllPlainPrefix(repl, p[1..], s);
      calc {
        ReplaceAll(ps, repl);
        [p[0]] + ReplaceAll(p[1..] + s, repl);
        [p[0]] + (p[1..] + ReplaceAll(s, repl));
        ([p[0]] + p[1..]) + ReplaceAll(s, repl);
        { assert [p[0]] + p[1..] == p; }
        p + ReplaceAll(s, repl);
      }
    } else {
      assert p + s == s;
    }
  }

  /** A match at the front is replaced and the rest is rewritten after it. */
  lemma ReplaceAllMentionPrefix(repl: string -> string, m: string, s: string)
    requires IsMention(m)
    ensures ReplaceAll(m + s, repl) == repl(m) + ReplaceAll(s, repl)
  {
    assert (m + s)[..|m|] == m;
    assert MatchAt(m + s) == Some(|m|);
    assert (m + s)[|m|..] == s;
  }

  /** The id of a match is its body between "<@" and ">", itself trimmed of
      surplus markers. */
  lemma MentionIdIsTrimmedBody(m: string)
    requires IsMention(m)
    ensures MentionId(m) == Trim(m[2..|m| - 1], MARKERS)
  {
    var body := m[2..|m| - 1];
    assert m[0] in MARKERS && m[1] in MARKERS;
    assert TrimLeft(m, MARKERS) == TrimLeft(m[1..], MARKERS);
    assert m[1..][1..] == m[2..];
    assert TrimLeft(m[1..], MARKERS) == TrimLeft(m[2..], MARKERS);
    assert m[2..] == body + ">";
    TrimMarkerSuffix(body);
  }

  lemma {:induction false} TrimMarkerSuffix(body: string)
    ensures TrimRight(TrimLeft(body + ">", MARKERS), MARKERS) == TrimRight(TrimLeft(body, MARKERS), MARKERS)
    decreases |body|
  {
    if body == [] {
    } else if body[0] in MARKERS {
      assert (body + ">")[1..] == body[1..] + ">";
      TrimMarkerSuffix(body[1..]);
    } else {
      var t := body + ">";
      assert TrimLeft(t, MARKERS) == t;
      assert t[..|t| - 1] == body;
    }
  }

  /** For a match whose body neither starts nor ends with a marker, the id is
      exactly the body. */
  lemma MentionIdPlain(m: string)
    requires IsMention(m) && m[2] !in MARKERS && m[|m| - 2] !in MARKERS
    ensures MentionId(m) == m[2..|m| - 1]
  {
    MentionIdIsTrimmedBody(m);
    var body := m[2..|m| - 1];
    assert body != [] && body[0] !in MARKERS && body[|body| - 1] !in MARKERS;
    assert TrimLeft(body, MARKERS) == body;
    assert TrimRight(body, MARKERS) == body;
  }

  /** Plain text followed by a match: the text is kept, the match replaced,
      and the rest rewritten after them. */
  lemma ReplaceAllPlainThenMention(repl: string -> string, p: string, m: string, s: string)
    requires forall k :: 0 <= k < |p| ==> p[k] != '<'
    requires IsMention(m)
    ensures ReplaceAll(p + m + s, repl) == p + repl(m) + ReplaceAll(s, repl)
  {
    assert p + m + s == p + (m + s);
    ReplaceAllPlainPrefix(repl, p, m + s);
    ReplaceAllMentionPrefix(repl, m, s);
  }

  /** Two matches separated by plain text are replaced independently of each
      other: what one lookup returns has no effect on the other replacement. */
  lemma ReplaceAllTwoMentions(repl: string -> string, a: string, m1: string, b: string, m2: string)
    requires forall k :: 0 <= k < |a| ==> a[k] != '<'
    requires forall k :: 0 <= k < |b| ==> b[k] != '<'
    requires IsMention(m1) && IsMention(m2)
    ensures ReplaceAll(a + m1 + b + m2, repl) == a + repl(m1) + b + repl(m2)
  {
    var rest := b + m2;
    assert a + m1 + b + m2 == a + m1 + rest;
    assert rest + [] == rest;
    ReplaceAllPlainThenMention(repl, b, m2, []);
    ReplaceAllPlainThenMention(repl, a, m1, rest);
    assert ReplaceAll(rest, repl) == b + repl(m2);
  }

  /** The text that replaces one match: "@" and the real name of the user
      whose id the match holds, or "@Error" when that lookup fails. */
  function Replacement(w: Workspace, m: string): string
  {
    match GetUserInfo(w, MentionId(m))
    case Some(u) => "@" + u.realName
    case None => ERROR_MENTION
  }

  /** The mention rewrite of one message text, looking users up in w. */
  function Rewrite(w: Workspace, s: string): string
  {
    ReplaceAll(s, m => Replacement(w, m))
  }

  /** A match around a plain user id is replaced by that user's real name
      after "@", or by "@Error" when the id is not in the directory. */
  lemma ReplacementOfId(w: Workspace, id: string)
    requires id != [] && id[0] !in MARKERS && id[|id| - 1] !in MARKERS
    requires forall k :: 0 <= k < |id| ==> id[k] != '>'
    ensures IsMention("<@" + id + ">")
    ensures Replacement(w, "<@" + id + ">") ==
      if id in w.users then "@" + w.users[id].realName else ERROR_MENTION
  {
    var m := "<@" + id + ">";
    assert m[2..|m| - 1] == id;
    assert forall k :: 2 <= k < |m| - 1 ==> m[k] == id[k - 2];
    MentionIdPlain(m);
  }

  lemma ExampleParts()
    ensures forall k :: 0 <= k < |"hello "| ==> "hello "[k] != '<'
    ensures forall k :: 0 <= k < |" and "| ==> " and "[k] != '<'
    ensures IsMention("<@U123>") && IsMention("<@U456>")
    ensures "hello <@U123> and <@U456>" == "hello " + "<@U123>" + " and " + "<@U456>"
    ensures "hello " + "@Alice" + " and " + "@Error" == "hello @Alice and @Error"
  {
  }

  lemma ExampleLookups(w: Workspace)
    requires w.users == map["U123" := User("U123", "Alice")]
    ensures Replacement(w, "<@U123>") == "@Alice"
    ensures Replacement(w, "<@U456>") == "@Error"
  {
    MentionIdPlain("<@U123>");
    MentionIdPlain("<@U456>");
    assert "<@U123>"[2..6] == "U123" && "<@U456>"[2..6] == "U456";
  }

  /** The worked example: U123 resolves to Alice, U456 cannot be looked up. */
  lemma RewriteExample(w: Workspace, text: string)
    requires w.users == map["U123" := User("U123", "Alice")]
    requires text == "hello <@U123> and <@U456>"
    ensures Rewrite(w, text) == "hello @Alice and @Error"
  {
    ExampleParts();
    ExampleLookups(w);
    ReplaceAllTwoMentions(m => Replacement(w, m), "hello ", "<@U123>", " and ", "<@U456>");
  }

  /** A bare "<@>" never starts a match, whatever follows it, and it is kept
      verbatim in front of the rewritten rest. */
  lemma BareMarkerKept(repl: string -> string, s: string)
    ensures MatchAt("<@>" + s).None?
    ensures ReplaceAll("<@>" + s, repl) == "<@>" + ReplaceAll(s, repl)
  {
    var t := "<@>" + s;
    assert t[0] == '<' && t[1] == '@' && t[2] == '>';
    assert t[1..] == "@>" + s;
    ReplaceAllPlainPrefix(repl, "@>", s);
    assert [t[0]] + "@>" == "<@>";
  }

  /** The worked example: a bare "<@>" inside a text passes through. */
  lemma BareMarkerUnchanged(w: Workspace)
    ensures Rewrite(w, "a <@> b") == "a <@> b"
  {
    var s := "a <@> b";
    forall i, j | 0 <= i <= j <= |s| ensures !IsMention(s[i..j]) {
      if j - i >= 4 && s[i] == '<' {
        assert i == 2;
        assert s[i..j][2] == '>';
      }
    }
    ReplaceAllMentionFree(m => Replacement(w, m), s);
  }
}
