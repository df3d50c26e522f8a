/** Key paths: "a.b[2].c[id=x].d[+]" read from and written into a tree of objects and lists. */
module KeyPath {
  import opened Prelude
  import opened KeyOrder
  import opened JsonCodec

  datatype Selector = Whole | Append | At(index: int) | Match(key: string, text: string)

  datatype Step = Step(key: string, selector: Selector)

  type Fields = map<string, Json>

  // ---- Text of a path ----

  /** Where a dot outside brackets ends each part. */
  function Split(path: string, depth: nat, part: string): (parts: seq<string>)
    ensures parts != []
  {
    if path == "" then [part]
    else
      var c := path[0];
      if c == '.' && depth == 0 then [part] + Split(path[1..], 0, "")
      else Split(path[1..], Depth(depth, c), part + [c])
  }

  function Depth(depth: nat, c: char): nat {
    if c == '[' then depth + 1 else if c == ']' && depth > 0 then depth - 1 else depth
  }

  method SplitKeyPath(path: string) returns (out: seq<string>)
    ensures out == Split(path, 0, "")
  {
    out := [];
    var b, depth := "", 0;
    for i := 0 to |path|
      invariant depth >= 0 && out + Split(path[i..], depth, b) == Split(path, 0, "")
    {
      assert path[i..] == [path[i]] + path[i + 1..];
      match path[i] {
        case '.' =>
          if depth == 0 {
            out := out + [b];
            b := "";
          } else {
            b := b + ['.'];
          }
        case '[' =>
          depth := depth + 1;
          b := b + ['['];
        case ']' =>
          if depth > 0 {
            depth := depth - 1;
          }
          b := b + [']'];
        case c =>
          b := b + [c];
      }
    }
    out := out + [b];
  }

  function IndexOf(s: string, c: char): (i: nat)
    ensures i <= |s| && (i < |s| ==> s[i] == c) && forall j :: 0 <= j < i ==> s[j] != c
  {
    if s == "" || s[0] == c then 0 else 1 + IndexOf(s[1..], c)
  }

  /** strconv.Atoi with 64-bit int. */
  function Atoi(s: string): Option<int> {
    var digits := if s != "" && (s[0] == '-' || s[0] == '+') then s[1..] else s;
    if digits == "" || !AllDigits(digits) then None
    else
      var n := if s[0] == '-' then -(NumberOf(digits) as int) else NumberOf(digits);
      if -INT64_LIMIT <= n < INT64_LIMIT then Some(n) else None
  }

  function ParseSelector(raw: string): Result<Selector> {
    var eq := IndexOf(raw, '=');
    if raw == "+" then Ok(Append)
    else if eq < |raw| then Ok(Match(raw[..eq], raw[eq + 1..]))
    else
      match Atoi(raw)
      case Some(n) => Ok(At(n))
      case None => Err("invalid index selector")
  }

  function ParsePart(part: string): Result<Step> {
    var open := IndexOf(part, '[');
    var bracketed := open < |part| && part[|part| - 1] == ']';
    var step :- if !bracketed then Ok(Step(part, Whole))
                else var selector :- ParseSelector(part[open + 1..|part| - 1]); Ok(Step(part[..open], selector));
    if step.key == "" then Err("empty key") else Ok(step)
  }

  function ParseParts(parts: seq<string>): Result<seq<Step>> {
    if parts == [] then Ok([])
    else
      var step :- ParsePart(parts[0]);
      var rest :- ParseParts(parts[1..]);
      Ok([step] + rest)
  }

  function After(steps: seq<Step>, rest: Result<seq<Step>>): Result<seq<Step>> {
    if rest.Ok? then Ok(steps + rest.value) else rest
  }

  function Parse(path: string): Result<seq<Step>> {
    if path == "" then Err("empty path") else ParseParts(Split(path, 0, ""))
  }

  method ParseKeyPath(path: string) returns (r: Result<seq<Step>>)
    ensures r == Parse(path)
  {
    if path == "" {
      return Err("empty path");
    }
    var parts := SplitKeyPath(path);
    var steps := [];
    assert parts[0..] == parts;
    assert forall rest: seq<Step> :: [] + rest == rest;
    for i := 0 to |parts|
      invariant Parse(path) == After(steps, ParseParts(parts[i..]))
    {
      assert parts[i..][0] == parts[i] && parts[i..][1..] == parts[i + 1..];
      var step :- ParsePart(parts[i]);
      assert forall rest :: steps + ([step] + rest) == steps + [step] + rest;
      steps := steps + [step];
    }
    assert parts[|parts|..] == [] && steps + [] == steps;
    return Ok(steps);
  }

  function RenderSelector(selector: Selector): string {
    match selector
    case Whole => ""
    case Append => "[+]"
    case At(n) => "[" + FormatInt(n) + "]"
    case Match(k, text) => "[" + k + "=" + text + "]"
  }

  function RenderStep(step: Step): string {
    step.key + RenderSelector(step.selector)
  }

  function Join(parts: seq<string>): string
    requires parts != []
  {
    if |parts| == 1 then parts[0] else parts[0] + "." + Join(parts[1..])
  }

  function RenderAll(steps: seq<Step>): seq<string> {
    if steps == [] then [] else [RenderStep(steps[0])] + RenderAll(steps[1..])
  }

  lemma {:induction false} JoinSplit(path: string, depth: nat, part: string)
    ensures Join(Split(path, depth, part)) == part + path
  {
    if path != "" {
      var c := path[0];
      if c == '.' && depth == 0 {
        JoinSplit(path[1..], 0, "");
      } else {
        JoinSplit(path[1..], Depth(depth, c), part + [c]);
      }
    }
  }

  lemma PartRenders(part: string)
    requires ParsePart(part).Ok? && !ParsePart(part).value.selector.At?
    ensures RenderStep(ParsePart(part).value) == part
  {
    var open := IndexOf(part, '[');
    if open < |part| && part[|part| - 1] == ']' {
      var raw := part[open + 1..|part| - 1];
      SelectorRenders(raw);
      hide ParseSelector;
      hide RenderSelector;
      assert part == part[..open] + ("[" + raw + "]");
    }
  }

  lemma SelectorRenders(raw: string)
    requires ParseSelector(raw).Ok? && !ParseSelector(raw).value.At?
    ensures RenderSelector(ParseSelector(raw).value) == "[" + raw + "]"
  {
    var eq := IndexOf(raw, '=');
    if raw != "+" && eq < |raw| {
      assert raw == raw[..eq] + "=" + raw[eq + 1..];
      assert "[" + raw[..eq] + "=" + raw[eq + 1..] + "]" == "[" + raw + "]";
    }
  }

  lemma {:induction false} PartsRender(parts: seq<string>)
    requires ParseParts(parts).Ok?
    requires forall i :: 0 <= i < |ParseParts(parts).value| ==> !ParseParts(parts).value[i].selector.At?
    ensures RenderAll(ParseParts(parts).value) == parts
  {
    if parts != [] {
      var steps := ParseParts(parts).value;
      assert ParsePart(parts[0]) == Ok(steps[0]) && ParseParts(parts[1..]) == Ok(steps[1..]);
      PartRenders(parts[0]);
      PartsRender(parts[1..]);
    }
  }

  /** Parsing loses nothing but the spelling of an index: "01" and "+1" also read as 1. */
  lemma ParsedRenders(path: string)
    requires Parse(path).Ok? && forall i :: 0 <= i < |Parse(path).value| ==> !Parse(path).value[i].selector.At?
    ensures Parse(path).value != [] && Join(RenderAll(Parse(path).value)) == path
  {
    JoinSplit(path, 0, "");
    PartsRender(Split(path, 0, ""));
  }

  /** A key or selector text that brackets and dots cannot cut. */
  predicate Uncut(s: string) {
    forall i :: 0 <= i < |s| ==> s[i] != '[' && s[i] != ']'
  }

  predicate Renderable(step: Step) {
    && step.key != "" && Uncut(step.key) && '.' !in step.key
    && (step.selector.Match? ==> Uncut(step.selector.key) && Uncut(step.selector.text) && '=' !in step.selector.key)
    && (step.selector.At? ==> -INT64_LIMIT <= step.selector.index < INT64_LIMIT)
  }

  predicate AllRenderable(steps: seq<Step>) {
    forall i :: 0 <= i < |steps| ==> Renderable(steps[i])
  }

  lemma {:induction false} SplitPlain(s: string, rest: string, depth: nat, part: string)
    requires Uncut(s) && (depth == 0 ==> '.' !in s)
    ensures Split(s + rest, depth, part) == Split(rest, depth, part + s)
  {
    if s == "" {
      assert s + rest == rest && part + s == part;
    } else {
      assert (s + rest)[1..] == s[1..] + rest;
      SplitPlain(s[1..], rest, depth, part + [s[0]]);
      assert part + [s[0]] + s[1..] == part + s;
    }
  }

  lemma SplitBracketed(inner: string, rest: string, part: string)
    requires Uncut(inner)
    ensures Split("[" + inner + "]" + rest, 0, part) == Split(rest, 0, part + ("[" + inner + "]"))
  {
    var s := "[" + inner + "]" + rest;
    assert s[1..] == inner + ("]" + rest);
    SplitPlain(inner, "]" + rest, 1, part + "[");
    assert ("]" + rest)[1..] == rest;
    assert part + "[" + inner + "]" == part + ("[" + inner + "]");
  }

  lemma DigitsPlain(n: int)
    ensures Uncut(FormatInt(n))
  {
  }

  function Inner(selector: Selector): string {
    match selector
    case Whole => ""
    case Append => "+"
    case At(n) => FormatInt(n)
    case Match(k, text) => k + "=" + text
  }

  lemma SplitStep(step: Step, rest: string)
    requires Renderable(step)
    ensures Split(RenderStep(step) + rest, 0, "") == Split(rest, 0, RenderStep(step))
  {
    var sel := RenderSelector(step.selector);
    assert RenderStep(step) + rest == step.key + (sel + rest);
    SplitPlain(step.key, sel + rest, 0, "");
    assert "" + step.key == step.key;
    if step.selector.Whole? {
      assert sel + rest == rest && RenderStep(step) == step.key;
    } else {
      if step.selector.At? {
        DigitsPlain(step.selector.index);
      }
      assert sel == "[" + Inner(step.selector) + "]";
      SplitBracketed(Inner(step.selector), rest, step.key);
    }
  }

  lemma FirstAt(a: string, c: char, b: string)
    requires c !in a
    ensures IndexOf(a + [c] + b, c) == |a|
  {
    var s := a + [c] + b;
    assert s[|a|] == c;
    assert forall j :: 0 <= j < |a| ==> s[j] == a[j];
  }

  lemma AtoiFormatted(n: int)
    requires -INT64_LIMIT <= n < INT64_LIMIT
    ensures Atoi(FormatInt(n)) == Some(n)
  {
    DecimalRead(if n < 0 then -n else n);
    if n < 0 {
      assert FormatInt(n)[1..] == Decimal(-n);
    }
  }

  lemma SelectorParsed(selector: Selector)
    requires !selector.Whole? && Renderable(Step("k", selector))
    ensures ParseSelector(Inner(selector)) == Ok(selector)
  {
    match selector
    case Append =>
    case At(n) =>
      AtoiFormatted(n);
      var s := FormatInt(n);
      assert forall i :: 0 <= i < |s| ==> s[i] != '=' && s[i] != '+';
    case Match(k, text) =>
      FirstAt(k, '=', text);
      var raw := k + "=" + text;
      assert raw[..|k|] == k && raw[|k| + 1..] == text && '=' in raw;
  }

  lemma BracketedParsed(key: string, inner: string)
    requires key != "" && Uncut(key) && ParseSelector(inner).Ok?
    ensures ParsePart(key + "[" + inner + "]") == Ok(Step(key, ParseSelector(inner).value))
  {
    hide ParseSelector;
    var part := key + "[" + inner + "]";
    assert part == key + "[" + (inner + "]");
    FirstAt(key, '[', inner + "]");
    assert part[..|key|] == key && part[|key| + 1..|part| - 1] == inner;
  }

  lemma PartParsed(step: Step)
    requires Renderable(step)
    ensures ParsePart(RenderStep(step)) == Ok(step)
  {
    hide ParseSelector;
    var key, selector := step.key, step.selector;
    if selector.Whole? {
      assert RenderStep(step) == key;
    } else {
      hide ParsePart;
      SelectorParsed(selector);
      BracketsRendered(step);
      hide Inner;
      hide RenderStep;
      BracketedParsed(key, Inner(selector));
    }
  }

  lemma BracketsRendered(step: Step)
    requires Renderable(step) && !step.selector.Whole?
    ensures RenderStep(step) == step.key + "[" + Inner(step.selector) + "]"
  {
    hide FormatInt;
    assert RenderSelector(step.selector) == "[" + Inner(step.selector) + "]";
  }

  lemma PartThenParts(part: string, parts: seq<string>)
    requires ParsePart(part).Ok? && ParseParts(parts).Ok?
    ensures ParseParts([part] + parts) == Ok([ParsePart(part).value] + ParseParts(parts).value)
  {
    hide ParsePart;
    assert ([part] + parts)[1..] == parts;
  }

  lemma LastParsed(step: Step)
    requires Renderable(step)
    ensures ParseParts(Split(RenderStep(step), 0, "")) == Ok([step])
  {
    var text := RenderStep(step);
    SplitStep(step, "");
    assert text + "" == text;
    PartParsed(step);
    assert Split(text, 0, "") == [text] + [];
    PartThenParts(text, []);
    assert [step] + [] == [step];
  }

  lemma SplitFirst(step: Step, rest: string)
    requires Renderable(step)
    ensures Split(RenderStep(step) + "." + rest, 0, "") == [RenderStep(step)] + Split(rest, 0, "")
  {
    SplitStep(step, "." + rest);
    hide RenderStep;
    hide Renderable;
    assert RenderStep(step) + "." + rest == RenderStep(step) + ("." + rest);
    assert ("." + rest)[1..] == rest;
  }

  lemma {:induction false} JoinParsed(steps: seq<Step>)
    requires steps != [] && AllRenderable(steps)
    ensures ParseParts(Split(Join(RenderAll(steps)), 0, "")) == Ok(steps)
  {
    hide ParsePart;
    hide RenderStep;
    hide Renderable;
    var text := RenderStep(steps[0]);
    PartParsed(steps[0]);
    assert steps == [steps[0]] + steps[1..];
    if |steps| == 1 {
      LastParsed(steps[0]);
      assert RenderAll(steps) == [text];
    } else {
      var rest := Join(RenderAll(steps[1..]));
      JoinParsed(steps[1..]);
      SplitFirst(steps[0], rest);
      hide Split;
      hide ParseParts;
      PartThenParts(text, Split(rest, 0, ""));
      assert RenderAll(steps)[1..] == RenderAll(steps[1..]);
    }
  }

  /** Every sequence of steps whose keys and texts hold no bracket is what its own rendering parses to. */
  lemma RenderedParses(steps: seq<Step>)
    requires steps != [] && AllRenderable(steps)
    ensures Parse(Join(RenderAll(steps))) == Ok(steps)
  {
    JoinParsed(steps);
    assert RenderStep(steps[0]) != "";
  }
}
