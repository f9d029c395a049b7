/** How a database reads text that was put between double quotes. */
module SqlText {
  import opened Statuses

  function ToLower(s: string): string {
    seq(|s|, i requires 0 <= i < |s| => if 'A' <= s[i] <= 'Z' then s[i] - 'A' + 'a' else s[i])
  }

  /** What follows a backslash, where backslashes escape. */
  function Unescape(c: char): (r: string)
    ensures 1 <= |r| <= 2 && (|r| == 2 ==> (c == '%' || c == '_') && r == ['\\', c])
  {
    if c == '%' || c == '_' then ['\\', c]
    else if c == 'n' then "\n"
    else if c == 't' then "\t"
    else if c == 'r' then "\r"
    else if c == '0' then "\0"
    else if c == 'b' then "\U{0008}"
    else if c == 'Z' then "\U{001A}"
    else [c]
  }

  datatype Quoted = Quoted(value: string, rest: string)

  function After(prefix: string, r: Option<Quoted>): Option<Quoted> {
    if r.None? then None else Some(r.value.(value := prefix + r.value.value))
  }

  /** The text up to the closing quote, and what comes after it; a doubled quote stands for one. */
  function ReadQuoted(escapes: bool, s: string): Option<Quoted>
    decreases |s|
  {
    if s == "" then None
    else if s[0] == '"' then
      if |s| > 1 && s[1] == '"' then After("\"", ReadQuoted(escapes, s[2..])) else Some(Quoted("", s[1..]))
    else if escapes && s[0] == '\\' then
      if |s| > 1 then After(Unescape(s[1]), ReadQuoted(escapes, s[2..])) else None
    else After([s[0]], ReadQuoted(escapes, s[1..]))
  }

  /** No quote, and where backslashes escape only those that stand for themselves. */
  predicate Plain(escapes: bool, s: string) {
    && '"' !in s
    && (escapes ==> forall i | 0 <= i < |s| && s[i] == '\\' :: i + 1 < |s| && (s[i + 1] == '%' || s[i + 1] == '_'))
  }

  lemma PlainTail(escapes: bool, s: string, n: nat)
    requires n <= |s| && Plain(escapes, s)
    ensures Plain(escapes, s[n..])
  {
    forall i | 0 <= i < |s[n..]| && escapes && s[n..][i] == '\\'
      ensures i + 1 < |s[n..]| && (s[n..][i + 1] == '%' || s[n..][i + 1] == '_')
    {
      assert s[n + i] == '\\';
    }
  }

  lemma {:induction false} PlainIsRead(escapes: bool, s: string, rest: string)
    requires Plain(escapes, s) && (rest != "" ==> rest[0] != '"')
    ensures ReadQuoted(escapes, s + "\"" + rest) == Some(Quoted(s, rest))
    decreases |s|
  {
    var t := s + "\"" + rest;
    if s == "" {
      assert t[1..] == rest;
    } else {
      var n := if escapes && s[0] == '\\' then 2 else 1;
      PlainTail(escapes, s, n);
      PlainIsRead(escapes, s[n..], rest);
      assert t[n..] == s[n..] + "\"" + rest;
      assert t[0] == s[0] && (n == 2 ==> t[1] == s[1]);
      assert s[0] != '"' && s[..n] == (if n == 2 then Unescape(s[1]) else [s[0]]);
      assert ReadQuoted(escapes, t) == After(s[..n], ReadQuoted(escapes, t[n..]));
      assert s == s[..n] + s[n..];
    }
  }

  /** Reading never lengthens a text; where it does not shorten it, the text was plain. */
  lemma {:induction false} ReadShrinks(escapes: bool, t: string)
    requires ReadQuoted(escapes, t).Some?
    ensures var q := ReadQuoted(escapes, t).value;
            && |q.value| + |q.rest| + 1 <= |t|
            && (|q.value| + |q.rest| + 1 == |t| ==> Plain(escapes, q.value) && t == q.value + "\"" + q.rest)
    decreases |t|
  {
    hide Plain, Unescape;
    PlainEmpty(escapes);
    var q := ReadQuoted(escapes, t).value;
    if t[0] == '"' {
      if |t| > 1 && t[1] == '"' {
        ReadShrinks(escapes, t[2..]);
      } else {
        assert t == "" + "\"" + q.rest;
      }
    } else {
      var n := if escapes && t[0] == '\\' then 2 else 1;
      ReadShrinks(escapes, t[n..]);
      var tail := ReadQuoted(escapes, t[n..]).value;
      var head := if n == 2 then Unescape(t[1]) else [t[0]];
      assert q.value == head + tail.value && q.rest == tail.rest;
      if |q.value| + |q.rest| + 1 == |t| {
        assert head == t[..n];
        PlainCons(escapes, head, tail.value);
        assert t == t[..n] + t[n..];
      }
    }
  }

  lemma PlainEmpty(escapes: bool)
    ensures Plain(escapes, "")
  {
  }

  lemma PlainCons(escapes: bool, head: string, tail: string)
    requires Plain(escapes, tail) && (|head| == 1 || |head| == 2) && '"' !in head
    requires if escapes && head[0] == '\\' then |head| == 2 && (head[1] == '%' || head[1] == '_') else |head| == 1
    ensures Plain(escapes, head + tail)
  {
    var s := head + tail;
    forall i | 0 <= i < |s| && escapes && s[i] == '\\' ensures i + 1 < |s| && (s[i + 1] == '%' || s[i + 1] == '_') {
      if i >= |head| { assert tail[i - |head|] == '\\'; }
    }
  }

  /** A text between quotes is read back as itself if and only if it is plain. */
  lemma ReadBack(escapes: bool, s: string, rest: string)
    requires rest != "" ==> rest[0] != '"'
    ensures ReadQuoted(escapes, s + "\"" + rest) == Some(Quoted(s, rest)) <==> Plain(escapes, s)
  {
    if Plain(escapes, s) {
      PlainIsRead(escapes, s, rest);
    } else if ReadQuoted(escapes, s + "\"" + rest) == Some(Quoted(s, rest)) {
      ReadShrinks(escapes, s + "\"" + rest);
    }
  }

  /** Without escapes, a text that is read without a quote in it was read as it stands. */
  lemma {:induction false} ReadAsIs(t: string)
    requires ReadQuoted(false, t).Some?
    ensures var q := ReadQuoted(false, t).value;
            '"' in q.value || t == q.value + "\"" + q.rest
    decreases |t|
  {
    var q := ReadQuoted(false, t).value;
    if t[0] == '"' {
      if |t| > 1 && t[1] == '"' {
        assert q.value[0] == '"';
      } else {
        assert t == "" + "\"" + q.rest;
      }
    } else {
      var tail := ReadQuoted(false, t[1..]).value;
      assert q.value == [t[0]] + tail.value;
      ReadAsIs(t[1..]);
      assert t == [t[0]] + t[1..];
    }
  }
}
