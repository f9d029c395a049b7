/** Binding parameters into a template query: QueryConfigExecutor::ExecuteQuery and the replacement it uses. */
module QueryTemplate {
  import opened Statuses
  import opened Decimal

  datatype Replacement = Replacement(key: string, value: string)

  /******* absl::StrReplaceAll *******/

  predicate IsPrefix(key: string, s: string) {
    key != "" && key <= s
  }

  /** The longest key that `s` starts with, if any. */
  function Longest(s: string, rs: seq<Replacement>): (r: Option<Replacement>)
    ensures r.None? ==> forall k | k in rs :: !IsPrefix(k.key, s)
    ensures r.Some? ==> r.value in rs && IsPrefix(r.value.key, s)
    ensures r.Some? ==> forall k | k in rs && IsPrefix(k.key, s) :: |k.key| <= |r.value.key|
  {
    if rs == [] then None else
    var rest := Longest(s, rs[1..]);
    if IsPrefix(rs[0].key, s) && (rest.None? || |rs[0].key| >= |rest.value.key|) then Some(rs[0]) else rest
  }

  /** One pass from the left; what has been inserted is not looked at again. */
  function StrReplaceAll(s: string, rs: seq<Replacement>): string
    decreases |s|
  {
    if s == "" then "" else
    var found := Longest(s, rs);
    if found.Some? then found.value.value + StrReplaceAll(s[|found.value.key|..], rs)
    else [s[0]] + StrReplaceAll(s[1..], rs)
  }

  /******* Templates *******/

  datatype Piece = Char(c: char) | Slot(i: nat)

  /** A template query with `count` parameters, read as text and slots `$0`, `$1`, ... */
  function Parse(s: string, count: nat): seq<Piece>
    decreases |s|
  {
    if s == "" then []
    else if |s| >= 2 && s[0] == '$' && '0' <= s[1] <= '9' && (s[1] - '0') as nat < count then
      [Slot((s[1] - '0') as nat)] + Parse(s[2..], count)
    else [Char(s[0])] + Parse(s[1..], count)
  }

  function SlotName(i: nat): string {
    "$" + Digits(i)
  }

  function Render(ps: seq<Piece>): string {
    if ps == [] then "" else (if ps[0].Char? then [ps[0].c] else SlotName(ps[0].i)) + Render(ps[1..])
  }

  function Fill(ps: seq<Piece>, parameters: seq<string>): string {
    if ps == [] then ""
    else (if ps[0].Char? then [ps[0].c] else if ps[0].i < |parameters| then parameters[ps[0].i] else "") +
         Fill(ps[1..], parameters)
  }

  function Replacements(parameters: seq<string>): seq<Replacement> {
    seq(|parameters|, i requires 0 <= i < |parameters| => Replacement(SlotName(i), parameters[i]))
  }

  lemma OneDigit(i: nat)
    requires i < 10
    ensures SlotName(i) == ['$', '0' + i as char]
  {
  }

  /** Parsing loses nothing. */
  lemma {:induction false} RenderParse(s: string, count: nat)
    ensures Render(Parse(s, count)) == s
    decreases |s|
  {
    if s != "" {
      var ps := Parse(s, count);
      if ps[0].Slot? {
        RenderParse(s[2..], count);
        OneDigit(ps[0].i);
        assert s == [s[0], s[1]] + s[2..];
      } else {
        RenderParse(s[1..], count);
        assert s == [s[0]] + s[1..];
      }
    }
  }

  /** With at most ten parameters the slot that `s` starts with is the only key that fits. */
  lemma LongestIsSlot(s: string, parameters: seq<string>)
    requires |parameters| <= 10 && s != ""
    ensures var p, found := Parse(s, |parameters|)[0], Longest(s, Replacements(parameters));
            && (p.Char? ==> found.None?)
            && (p.Slot? ==> found == Some(Replacement(['$', s[1]], parameters[p.i])))
  {
    var rs := Replacements(parameters);
    forall k | 0 <= k < |parameters|
      ensures IsPrefix(rs[k].key, s) <==> |s| >= 2 && s[0] == '$' && s[1] == '0' + k as char
    {
      OneDigit(k);
      if |s| >= 2 { assert s[..2] == [s[0], s[1]]; }
    }
    var p := Parse(s, |parameters|)[0];
    if p.Slot? {
      assert rs[p.i] in rs && IsPrefix(rs[p.i].key, s);
      var found := Longest(s, rs);
      var k :| 0 <= k < |rs| && rs[k] == found.value;
      assert '0' + k as char == s[1];
      OneDigit(k);
    }
  }

  /** Replacement fills the slots of the template, and only those, whatever the parameters contain. */
  lemma {:induction false} BindingFillsSlots(s: string, parameters: seq<string>)
    requires |parameters| <= 10
    ensures StrReplaceAll(s, Replacements(parameters)) == Fill(Parse(s, |parameters|), parameters)
    decreases |s|
  {
    hide Longest, Replacements;
    if s != "" {
      LongestIsSlot(s, parameters);
      var ps := Parse(s, |parameters|);
      if ps[0].Slot? {
        BindingFillsSlots(s[2..], parameters);
        assert ps[1..] == Parse(s[2..], |parameters|);
      } else {
        BindingFillsSlots(s[1..], parameters);
        assert ps[1..] == Parse(s[1..], |parameters|);
      }
    }
  }

  /** No slot name is the beginning of another. */
  ghost predicate PrefixFree(count: nat) {
    forall i: nat, j: nat | i < count && j < count && i != j :: !(SlotName(i) <= SlotName(j))
  }

  /** Ten is the largest number of parameters for which slot names cannot be mistaken. */
  lemma TenIsTheLimit(count: nat)
    ensures PrefixFree(count) <==> count <= 10
  {
    if count <= 10 {
      forall i: nat, j: nat | i < count && j < count && i != j ensures !(SlotName(i) <= SlotName(j)) {
        OneDigit(i);
        OneDigit(j);
        assert SlotName(i)[1] != SlotName(j)[1];
      }
    } else {
      OneDigit(1);
      assert Digits(10) == Digits(1) + ['0'];
      assert SlotName(1) <= SlotName(10);
    }
  }

  /******* ExecuteQuery *******/

  datatype Template = Template(query: string, parameterNum: int)

  /** What is sent to the source; a wrong number of parameters ends the process. */
  datatype Bound = Sent(query: string) | Refused(status: Status) | Fatal

  method Bind(template: Template, parameters: seq<string>) returns (r: Bound)
    ensures r == if |parameters| > 10 then Refused(InvalidArgument)
                 else if template.parameterNum != |parameters| then Fatal
                 else Sent(Fill(Parse(template.query, |parameters|), parameters))
  {
    if |parameters| > 10 {
      return Refused(InvalidArgument);
    }
    if template.parameterNum != |parameters| {
      return Fatal;
    }
    var replacements: seq<Replacement> := [];
    for i := 0 to |parameters|
      invariant replacements == Replacements(parameters)[..i]
    {
      replacements := replacements + [Replacement("$" + Digits(i), parameters[i])];
    }
    assert replacements == Replacements(parameters);
    BindingFillsSlots(template.query, parameters);
    return Sent(StrReplaceAll(template.query, replacements));
  }
}
