/** The three compiler diagnostics whose text names a crate the probing code can
    bring back (`src/lib.rs`): each pattern is matched by hand, capturing the
    identifier between backticks. */
module Diagnostics {
  import opened Wrappers
  import opened Text

  /** E0432, `\Aunresolved import `([a-zA-Z0-9_]+)`\z`. */
  const E0432Prefix := "unresolved import `"
  /** E0463, `\Acan't find crate for `([a-zA-Z0-9_]+)`\z`. */
  const E0463Prefix := "can't find crate for `"
  /** E0433, `\Afailed to resolve: [a-z ]+`([a-zA-Z0-9_]+)`( in `\{\{root\}\}`)?\z`. */
  const E0433Prefix := "failed to resolve: "
  const E0433RootSuffix := " in `{{root}}`"

  /** `prefix`, then an identifier, then a closing backtick, and nothing else. */
  function Quoted(prefix: string, s: string): (r: Option<string>)
    ensures r.Some? ==> IsIdent(r.value) && s == prefix + r.value + "`"
  {
    if |prefix| + 2 <= |s| && s[..|prefix|] == prefix && s[|s| - 1] == '`' && IsIdent(s[|prefix|..|s| - 1])
    then
      assert s == s[..|prefix|] + s[|prefix|..|s| - 1] + [s[|s| - 1]];
      Some(s[|prefix|..|s| - 1])
    else None
  }

  /** The capture is exactly the identifier of the one way of writing `s`. */
  lemma QuotedIff(prefix: string, s: string, name: string)
    ensures Quoted(prefix, s) == Some(name) <==> IsIdent(name) && s == prefix + name + "`"
  {
    if IsIdent(name) && s == prefix + name + "`" {
      assert s[..|prefix|] == prefix;
      assert s[|prefix|..|s| - 1] == name;
    }
  }

  function MatchE0432(message: string): (r: Option<string>)
    ensures r.Some? ==> IsIdent(r.value) && message == E0432Prefix + r.value + "`"
  {
    Quoted(E0432Prefix, message)
  }

  function MatchE0463(message: string): (r: Option<string>)
    ensures r.Some? ==> IsIdent(r.value) && message == E0463Prefix + r.value + "`"
  {
    Quoted(E0463Prefix, message)
  }

  /** `[a-z ]`. */
  predicate IsLowerOrSpace(c: char)
  {
    ('a' <= c <= 'z') || c == ' '
  }

  /** `[a-z ]+`. */
  predicate IsLowerWords(s: string)
  {
    |s| > 0 && forall i :: 0 <= i < |s| ==> IsLowerOrSpace(s[i])
  }

  /** The position of the first `c` in `s`, or `|s|` when there is none. */
  function IndexOf(s: string, c: char): (k: nat)
    ensures k <= |s|
    ensures k < |s| ==> s[k] == c
    ensures forall i :: 0 <= i < k ==> s[i] != c
  {
    if s == [] then 0
    else if s[0] == c then 0
    else 1 + IndexOf(s[1..], c)
  }

  /** The E0433 pattern: the words before the first backtick, the identifier
      up to the second, and then either nothing or `` in `{{root}}` ``. */
  function MatchE0433(message: string): (r: Option<string>)
    ensures r.Some? ==> IsIdent(r.value)
  {
    if |message| < |E0433Prefix| || message[..|E0433Prefix|] != E0433Prefix then None
    else
      var rest := message[|E0433Prefix|..];
      var k := IndexOf(rest, '`');
      if k == |rest| || !IsLowerWords(rest[..k]) then None
      else
        var after := rest[k + 1..];
        var j := IndexOf(after, '`');
        if j == |after| || !IsIdent(after[..j]) then None
        else
          var tail := after[j + 1..];
          if tail == "" || tail == E0433RootSuffix then Some(after[..j]) else None
  }

  /** A message written `failed to resolve: <words>`<name>`<tail>`. */
  ghost predicate E0433Shaped(message: string, name: string)
  {
    IsIdent(name) &&
    exists words: string, tail: string ::
      IsLowerWords(words) && (tail == "" || tail == E0433RootSuffix) &&
      message == E0433Prefix + words + "`" + name + "`" + tail
  }

  /** `[a-z ]` and `[a-zA-Z0-9_]` contain no backtick, so a message has at most
      one such reading, and the matcher finds it. */
  lemma MatchE0433Iff(message: string, name: string)
    ensures MatchE0433(message) == Some(name) <==> E0433Shaped(message, name)
  {
    if MatchE0433(message) == Some(name) {
      MatchE0433Sound(message);
    }
    if E0433Shaped(message, name) {
      var words: string, tail: string :|
        IsLowerWords(words) && (tail == "" || tail == E0433RootSuffix) &&
        message == E0433Prefix + words + "`" + name + "`" + tail;
      MatchE0433Complete(words, name, tail);
    }
  }

  lemma MatchE0433Sound(message: string)
    requires MatchE0433(message).Some?
    ensures E0433Shaped(message, MatchE0433(message).value)
  {
    var rest := message[|E0433Prefix|..];
    var k := IndexOf(rest, '`');
    var after := rest[k + 1..];
    var j := IndexOf(after, '`');
    var tail := after[j + 1..];
    var name := after[..j];
    assert after == name + "`" + tail;
    assert rest == rest[..k] + "`" + after;
    assert message == E0433Prefix + rest;
    assert message == E0433Prefix + rest[..k] + "`" + name + "`" + tail;
  }

  lemma MatchE0433Complete(words: string, name: string, tail: string)
    requires IsLowerWords(words) && IsIdent(name) && (tail == "" || tail == E0433RootSuffix)
    ensures MatchE0433(E0433Prefix + words + "`" + name + "`" + tail) == Some(name)
  {
    var message := E0433Prefix + words + "`" + name + "`" + tail;
    assert message[..|E0433Prefix|] == E0433Prefix;
    var rest := message[|E0433Prefix|..];
    assert rest == words + "`" + name + "`" + tail;
    NoBacktickBefore(rest, words);
    var after := rest[|words| + 1..];
    assert after == name + "`" + tail;
    NoBacktickBefore(after, name);
    assert rest[..|words|] == words;
    assert after[..|name|] == name;
    assert after[|name| + 1..] == tail;
  }

  /** A backtick right after a run of characters none of which is a backtick
      is the first one. */
  lemma NoBacktickBefore(s: string, run: string)
    requires |run| < |s| && s[..|run|] == run && s[|run|] == '`'
    requires forall i :: 0 <= i < |run| ==> IsLowerOrSpace(run[i]) || IsIdentChar(run[i])
    ensures IndexOf(s, '`') == |run|
  {
    forall i | 0 <= i < |run|
      ensures s[i] != '`'
    {
      assert s[i] == s[..|run|][i] == run[i];
    }
    FirstAt(s, '`', |run|);
  }

  /** The first occurrence, when every earlier character differs. */
  lemma FirstAt(s: string, c: char, k: nat)
    requires k < |s| && s[k] == c
    requires forall i :: 0 <= i < k ==> s[i] != c
    ensures IndexOf(s, c) == k
  {
  }

  /** What the diagnostic with error code `code` captures: the three patterns
      for E0432, E0433 and E0463, nothing for any other code. */
  function Capture(code: string, message: string): (r: Option<string>)
    ensures r.Some? ==> IsIdent(r.value)
    ensures r.Some? ==> code == "E0432" || code == "E0433" || code == "E0463"
  {
    if code == "E0432" then MatchE0432(message)
    else if code == "E0433" then MatchE0433(message)
    else if code == "E0463" then MatchE0463(message)
    else None
  }
}
