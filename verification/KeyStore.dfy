/** Reading and writing at a key path: what a write gives back, and what it leaves alone. */
module KeyStore {
  import opened Prelude
  import opened KeyOrder
  import opened JsonCodec
  import opened KeyPath

  // ---- fmt.Sprint, by which a match selector compares ----

  function Sprint(v: Json): string
    decreases v, 1, 0
  {
    match v
    case Null => "<nil>"
    case Bool(b) => if b then "true" else "false"
    case Int(n) => FormatInt(n)
    case Str(s) => s
    case List(items) => "[" + SprintItems(items) + "]"
    case Obj(fields) => "map[" + SprintMembers(v, SortedKeys(fields.Keys, CodePoint)) + "]"
  }

  function SprintItems(items: seq<Json>): string
    decreases items, 0, 0
  {
    if items == [] then ""
    else Sprint(items[0]) + (if |items| == 1 then "" else " " + SprintItems(items[1..]))
  }

  function SprintMembers(v: Json, keys: seq<string>): string
    requires v.Obj? && forall k :: k in keys ==> k in v.fields
    decreases v, 0, |keys|
  {
    if keys == [] then ""
    else
      keys[0] + ":" + Sprint(v.fields[keys[0]])
      + (if |keys| == 1 then "" else " " + SprintMembers(v, keys[1..]))
  }

  /** A missing field prints as the nil it reads as. */
  function SprintField(fields: Fields, key: string): string {
    Sprint(if key in fields then fields[key] else Null)
  }

  predicate Answers(item: Json, key: string, text: string) {
    item.Obj? && SprintField(item.fields, key) == text
  }

  /** The first item that fits; the length when none does. */
  function Find(list: seq<Json>, key: string, text: string): (i: nat)
    ensures i <= |list| && (i < |list| ==> Answers(list[i], key, text))
    ensures forall j :: 0 <= j < i ==> !Answers(list[j], key, text)
  {
    if list == [] || Answers(list[0], key, text) then 0 else 1 + Find(list[1..], key, text)
  }

  // ---- Reading ----

  /** The first item that fits. */
  function Picked(list: seq<Json>, key: string, text: string): Result<Json> {
    var i := Find(list, key, text);
    if i < |list| then Ok(list[i]) else Err("no matching list item")
  }

  function Choose(list: seq<Json>, selector: Selector): Result<Json>
    requires !selector.Whole?
  {
    match selector
    case At(n) => if 0 <= n < |list| then Ok(list[n]) else Err("index out of range")
    case Match(k, text) => Picked(list, k, text)
    case Append => Err("cannot read append selector")
  }

  function Look(v: Json, step: Step): Result<Json> {
    if !v.Obj? then Err("expected object")
    else if step.key !in v.fields then Err("missing key " + step.key)
    else
      var at := v.fields[step.key];
      if step.selector.Whole? then Ok(at)
      else if !at.List? then Err("expected list at " + step.key)
      else Choose(at.items, step.selector)
  }

  function Get(v: Json, steps: seq<Step>): Result<Json> {
    if steps == [] then Ok(v)
    else
      var next :- Look(v, steps[0]);
      Get(next, steps[1..])
  }

  function Read(root: Json, path: string): Result<Json> {
    var steps :- Parse(path);
    Get(root, steps)
  }

  method FindItem(list: seq<Json>, key: string, text: string) returns (found: Option<nat>)
    ensures found == if Find(list, key, text) < |list| then Some(Find(list, key, text)) else None
  {
    for j := 0 to |list|
      invariant Find(list, key, text) == j + Find(list[j..], key, text)
    {
      if list[j].Obj? && SprintField(list[j].fields, key) == text {
        return Some(j);
      }
    }
    return None;
  }

  method GetKeyPath(root: Json, path: string) returns (r: Result<Json>)
    ensures r == Read(root, path)
  {
    var steps :- ParseKeyPath(path);
    var current := root;
    for i := 0 to |steps|
      invariant Get(root, steps) == Get(current, steps[i..])
    {
      var step := steps[i];
      if !current.Obj? {
        return Err("expected object");
      }
      if step.key !in current.fields {
        return Err("missing key " + step.key);
      }
      current := current.fields[step.key];
      if step.selector != Whole {
        if !current.List? {
          return Err("expected list at " + step.key);
        }
        var list := current.items;
        match step.selector {
          case At(index) =>
            if index < 0 || index >= |list| {
              return Err("index out of range");
            }
            current := list[index];
          case Match(k, text) =>
            var found := FindItem(list, k, text);
            if found.None? {
              return Err("no matching list item");
            }
            current := list[found.value];
          case Append =>
            return Err("cannot read append selector");
        }
      }
    }
    return Ok(current);
  }

  // ---- Writing ----

  /** A spot in an object: a field, or one item of the list in a field. */
  datatype Place = Place(fields: Fields, key: string, list: seq<Json>, index: Option<nat>) {
    predicate Valid() {
      index.Some? ==> index.value < |list|
    }

    function Held(): Json
      requires Valid()
    {
      if index.Some? then list[index.value] else if key in fields then fields[key] else Obj(map[])
    }

    /** The object a longer path goes on in; anything else there is replaced by an empty one. */
    function Child(): Fields
      requires Valid()
    {
      if Held().Obj? then Held().fields else map[]
    }

    function Plug(v: Json): Fields
      requires Valid()
    {
      fields[key := if index.Some? then List(list[index.value := v]) else v]
    }
  }

  function ItemsAt(fields: Fields, key: string): seq<Json> {
    if key in fields && fields[key].List? then fields[key].items else []
  }

  /** Empty objects up to the index asked for. */
  function Padded(list: seq<Json>, n: nat): (r: seq<Json>)
    ensures |r| > n && |r| >= |list| && forall j :: 0 <= j < |r| ==> r[j] == if j < |list| then list[j] else Obj(map[])
    ensures n < |list| ==> r == list
    decreases n + 1 - |list|
  {
    if |list| <= n then Padded(list + [Obj(map[])], n) else list
  }

  /** Where a step leads when writing; a negative index leads nowhere. */
  function Enter(fields: Fields, step: Step): (p: Option<Place>)
    ensures p.Some? ==> p.value.Valid()
    ensures p.None? <==> step.selector.At? && step.selector.index < 0
  {
    var list := ItemsAt(fields, step.key);
    match step.selector
    case Whole => Some(Place(fields, step.key, [], None))
    case Append => Some(Place(fields, step.key, list + [Obj(map[])], Some(|list|)))
    case At(n) => if n < 0 then None else Some(Place(fields, step.key, Padded(list, n), Some(n)))
    case Match(k, text) =>
      var i := Find(list, k, text);
      Some(Place(fields, step.key, if i < |list| then list else list + [Obj(map[k := Str(text)])], Some(i)))
  }

  /** The object after the write, and whether it went through: earlier steps stay done when a later one fails. */
  function Put(fields: Fields, steps: seq<Step>, v: Json): (Fields, bool)
    requires steps != []
    decreases |steps|
  {
    match Enter(fields, steps[0])
    case None => (fields, false)
    case Some(p) =>
      if |steps| == 1 then (p.Plug(v), true)
      else
        var (child, ok) := Put(p.Child(), steps[1..], v);
        (p.Plug(Obj(child)), ok)
  }

  function Write(root: Fields, path: string, v: Json): (Fields, Result<()>) {
    match Parse(path)
    case Err(e) => (root, Err(e))
    case Ok(steps) =>
      if steps == [] then (root, Err("empty path"))
      else
        var (root', ok) := Put(root, steps, v);
        (root', if ok then Ok(()) else Err("invalid selector"))
  }

  /** The places walked through, outermost first, each filled with what lies within. */
  function Rebuilt(trail: seq<Place>, inner: Fields): Fields
    requires forall i :: 0 <= i < |trail| ==> trail[i].Valid()
  {
    if trail == [] then inner
    else
      var n := |trail| - 1;
      Rebuilt(trail[..n], trail[n].Plug(Obj(inner)))
  }

  method Select(fields: Fields, step: Step) returns (p: Option<Place>)
    ensures p == Enter(fields, step)
  {
    if step.selector.Whole? {
      return Some(Place(fields, step.key, [], None));
    }
    var list := [];
    if step.key in fields && fields[step.key].List? {
      list := fields[step.key].items;
    }
    var idx := -1;
    match step.selector {
      case Append =>
        idx := |list|;
        list := list + [Obj(map[])];
      case At(index) =>
        idx := index;
        if idx >= 0 {
          ghost var was := list;
          while |list| <= idx
            invariant Padded(was, idx) == Padded(list, idx)
            decreases idx - |list|
          {
            list := list + [Obj(map[])];
          }
        }
      case Match(k, text) =>
        var found := FindItem(list, k, text);
        if found.Some? {
          idx := found.value;
        } else {
          idx := |list|;
          list := list + [Obj(map[k := Str(text)])];
        }
    }
    if idx < 0 {
      return None;
    }
    return Some(Place(fields, step.key, list, Some(idx)));
  }

  method SetSteps(root: Fields, steps: seq<Step>, v: Json) returns (root': Fields, ok: bool)
    requires steps != []
    ensures (root', ok) == Put(root, steps, v)
  {
    var current, trail: seq<Place> := root, [];
    ok := true;
    var i := 0;
    while ok && i < |steps|
      invariant 0 <= i <= |steps| && forall j :: 0 <= j < |trail| ==> trail[j].Valid()
      invariant ok && i < |steps| ==>
        Put(root, steps, v) == (Rebuilt(trail, Put(current, steps[i..], v).0), Put(current, steps[i..], v).1)
      invariant !ok || i == |steps| ==> Put(root, steps, v) == (Rebuilt(trail, current), ok)
      decreases |steps| - i, ok
    {
      assert steps[i..][1..] == steps[i + 1..];
      var p := Select(current, steps[i]);
      if p.None? {
        ok := false;
      } else if i == |steps| - 1 {
        current := p.value.Plug(v);
        i := i + 1;
      } else {
        assert (trail + [p.value])[..|trail|] == trail;
        trail, current := trail + [p.value], p.value.Child();
        i := i + 1;
      }
    }
    while trail != []
      invariant forall j :: 0 <= j < |trail| ==> trail[j].Valid()
      invariant Put(root, steps, v) == (Rebuilt(trail, current), ok)
      decreases |trail|
    {
      var n := |trail| - 1;
      current, trail := trail[n].Plug(Obj(current)), trail[..n];
    }
    root' := current;
  }

  /** A cell's storage: SetKeyPath and GetKeyPath on one root object. */
  class Store {
    var root: Fields

    constructor ()
      ensures root == map[]
    {
      root := map[];
    }

    method Set(path: string, v: Json) returns (r: Result<()>)
      modifies this
      ensures (root, r) == Write(old(root), path, v)
    {
      var steps :- ParseKeyPath(path);
      if |steps| == 0 {
        return Err("empty path");
      }
      var after, ok := SetSteps(root, steps, v);
      root := after;
      return if ok then Ok(()) else Err("invalid selector");
    }

    method Load(path: string) returns (r: Result<Json>)
      ensures r == Read(Obj(root), path)
    {
      r := GetKeyPath(Obj(root), path);
    }
  }

  // ---- A write fails only on a negative index ----

  lemma {:induction false} PutFails(fields: Fields, steps: seq<Step>, v: Json)
    requires steps != []
    ensures Put(fields, steps, v).1 <==> forall i :: 0 <= i < |steps| && steps[i].selector.At? ==> steps[i].selector.index >= 0
    decreases |steps|
  {
    var p := Enter(fields, steps[0]);
    if p.Some? && |steps| > 1 {
      PutFails(p.value.Child(), steps[1..], v);
      assert forall i :: 0 < i < |steps| ==> steps[i] == steps[1..][i - 1];
    }
  }

  // ---- One step ----

  /** Whether a reader taking this step would still accept the item v. */
  predicate Kept(step: Step, v: Json) {
    step.selector.Match? ==> Answers(v, step.selector.key, step.selector.text)
  }

  lemma FindIs(list: seq<Json>, key: string, text: string, i: nat)
    requires i <= |list| && (i < |list| ==> Answers(list[i], key, text))
    requires forall j :: 0 <= j < i ==> !Answers(list[j], key, text)
    ensures Find(list, key, text) == i
  {
  }

  /** What a reader of a match selector falls through to when the item a writer entered no longer fits: the next that does. */
  function PassedOver(fields: Fields, step: Step): Result<Json>
    requires step.selector.Match?
  {
    var k, text := step.selector.key, step.selector.text;
    Picked(Beyond(ItemsAt(fields, step.key), k, text), k, text)
  }

  /** The items after the first that fits. */
  function Beyond(list: seq<Json>, key: string, text: string): seq<Json> {
    var i := Find(list, key, text);
    if i < |list| then list[i + 1..] else []
  }

  /** The list with its first fitting item, or else one made at the end, replaced. */
  function Plugged(list: seq<Json>, v: Json, key: string, text: string): seq<Json> {
    var i := Find(list, key, text);
    (if i < |list| then list else list + [Obj(map[key := Str(text)])])[i := v]
  }

  /** Reading the step just written gives the new item if it still fits, and otherwise the next that does. */
  lemma LookPlugged(fields: Fields, step: Step, v: Json)
    requires Enter(fields, step).Some? && !step.selector.Append?
    ensures var p := Enter(fields, step).value;
            Look(Obj(p.Plug(v)), step) == if Kept(step, v) then Ok(v) else PassedOver(fields, step)
  {
    if step.selector.Match? {
      hide Look;
      hide Kept;
      hide PassedOver;
      hide ItemsAt;
      hide Find;
      MatchLooked(fields, step, v);
    }
  }

  lemma MatchLooked(fields: Fields, step: Step, v: Json)
    requires step.selector.Match?
    ensures var after := Plugged(ItemsAt(fields, step.key), v, step.selector.key, step.selector.text);
            Look(Obj(fields[step.key := List(after)]), step) == if Kept(step, v) then Ok(v) else PassedOver(fields, step)
  {
    hide Answers;
    hide Plugged;
    hide Beyond;
    hide ItemsAt;
    hide Picked;
    PickedPlugged(ItemsAt(fields, step.key), v, step.selector.key, step.selector.text);
  }

  /** With the fitting item replaced, or one added at the end, the first that fits is that or the next. */
  lemma {:induction false} PickedPlugged(list: seq<Json>, v: Json, key: string, text: string)
    ensures Picked(Plugged(list, v, key, text), key, text) ==
            if Answers(v, key, text) then Ok(v) else Picked(Beyond(list, key, text), key, text)
    decreases |list|
  {
    hide Answers;
    hide Picked;
    hide Plugged;
    hide Beyond;
    if list == [] || Answers(list[0], key, text) {
      PluggedHere(list, v, key, text);
      PickedCons(v, Beyond(list, key, text), key, text);
    } else {
      PluggedPast(list, v, key, text);
      PickedCons(list[0], Plugged(list[1..], v, key, text), key, text);
      PickedPlugged(list[1..], v, key, text);
    }
  }

  lemma PickedCons(first: Json, rest: seq<Json>, key: string, text: string)
    ensures Picked([first] + rest, key, text) == if Answers(first, key, text) then Ok(first) else Picked(rest, key, text)
  {
    hide Answers;
    assert ([first] + rest)[1..] == rest;
  }

  lemma PluggedHere(list: seq<Json>, v: Json, key: string, text: string)
    requires list == [] || Answers(list[0], key, text)
    ensures Plugged(list, v, key, text) == [v] + Beyond(list, key, text)
  {
    hide Answers;
  }

  lemma PluggedPast(list: seq<Json>, v: Json, key: string, text: string)
    requires list != [] && !Answers(list[0], key, text)
    ensures Plugged(list, v, key, text) == [list[0]] + Plugged(list[1..], v, key, text)
    ensures Beyond(list, key, text) == Beyond(list[1..], key, text)
  {
    hide Answers;
  }

  /** What a reader finds at a step is what a writer enters; a writer who finds nothing makes it. */
  lemma LookEnter(fields: Fields, step: Step)
    requires Enter(fields, step).Some? && !step.selector.Append?
    ensures var p, seen := Enter(fields, step).value, Look(Obj(fields), step);
            && (seen.Ok? ==> p.Held() == seen.value)
            && (seen.Err? ==> p.Held() == Obj(if step.selector.Match? then map[step.selector.key := Str(step.selector.text)] else map[]))
  {
  }

  // ---- Set, then get ----

  /** What the first step's spot holds after the write. */
  function Written(fields: Fields, steps: seq<Step>, v: Json): Json
    requires steps != [] && Enter(fields, steps[0]).Some?
  {
    if |steps| == 1 then v else Obj(Put(Enter(fields, steps[0]).value.Child(), steps[1..], v).0)
  }

  /**
   * Whether the item the first step enters will still fit its match selector. Path and value tell, unless the
   * write goes deeper into the matched field itself: then the nested value's print has to come out as the text.
   */
  predicate StillFits(fields: Fields, steps: seq<Step>, v: Json)
    requires steps != [] && Enter(fields, steps[0]).Some?
  {
    steps[0].selector.Match? ==>
      var k, text := steps[0].selector.key, steps[0].selector.text;
      if |steps| == 1 then Answers(v, k, text)
      else if steps[1].key != k then true
      else if |steps| == 2 && steps[1].selector.Whole? then Sprint(v) == text
      else SprintField(Put(Enter(fields, steps[0]).value.Child(), steps[1..], v).0, k) == text
  }

  lemma PutTouchesKey(fields: Fields, steps: seq<Step>, v: Json, key: string)
    requires steps != [] && steps[0].key != key
    ensures var after := Put(fields, steps, v).0;
            (key in after <==> key in fields) && (key in fields ==> after[key] == fields[key])
  {
  }

  lemma StillFitsKept(fields: Fields, steps: seq<Step>, v: Json)
    requires steps != [] && Enter(fields, steps[0]).Some?
    ensures StillFits(fields, steps, v) <==> Kept(steps[0], Written(fields, steps, v))
  {
    if steps[0].selector.Match? && |steps| > 1 {
      var p := Enter(fields, steps[0]).value;
      assert Answers(p.Held(), steps[0].selector.key, steps[0].selector.text);
      hide Sprint;
      if steps[1].key != steps[0].selector.key {
        PutTouchesKey(p.Child(), steps[1..], v, steps[0].selector.key);
      }
    }
  }

  /** Every item the write enters by a match selector still fits it. */
  predicate Undisturbed(fields: Fields, steps: seq<Step>, v: Json)
    requires steps != []
    decreases |steps|
  {
    Enter(fields, steps[0]).Some? ==>
      && StillFits(fields, steps, v)
      && (|steps| > 1 ==> Undisturbed(Enter(fields, steps[0]).value.Child(), steps[1..], v))
  }

  /** As long as items fit, on to the value; at the first that does not, the next fitting one must hold the value already. */
  predicate ReadsBack(fields: Fields, steps: seq<Step>, v: Json)
    requires steps != []
    decreases |steps|
  {
    && Enter(fields, steps[0]).Some?
    && if StillFits(fields, steps, v) then |steps| == 1 || ReadsBack(Enter(fields, steps[0]).value.Child(), steps[1..], v)
       else
         var next := PassedOver(fields, steps[0]);
         next.Ok? && Get(next.value, steps[1..]) == Ok(v)
  }

  /** A write along append-free steps that goes through reads back exactly then. */
  lemma {:induction false} SetThenGet(fields: Fields, steps: seq<Step>, v: Json)
    requires steps != [] && (forall i :: 0 <= i < |steps| ==> !steps[i].selector.Append?)
    requires Put(fields, steps, v).1
    ensures Get(Obj(Put(fields, steps, v).0), steps) == Ok(v) <==> ReadsBack(fields, steps, v)
    ensures Undisturbed(fields, steps, v) ==> ReadsBack(fields, steps, v)
    decreases |steps|
  {
    var written, child := Written(fields, steps, v), Enter(fields, steps[0]).value.Child();
    StillFitsKept(fields, steps, v);
    LookPlugged(fields, steps[0], written);
    hide Look;
    hide Enter;
    hide PassedOver;
    hide StillFits;
    hide Kept;
    if |steps| > 1 {
      SetThenGet(child, steps[1..], v);
    }
  }

  /** No second item fits a match selector on the way. */
  predicate OnlyFits(fields: Fields, steps: seq<Step>)
    requires steps != []
    decreases |steps|
  {
    Enter(fields, steps[0]).Some? ==>
      && (steps[0].selector.Match? ==> PassedOver(fields, steps[0]).Err?)
      && (|steps| > 1 ==> OnlyFits(Enter(fields, steps[0]).value.Child(), steps[1..]))
  }

  /** Where each match selector fits one item at most, a write reads back exactly when it leaves each fitting. */
  lemma {:induction false} OnlyFitsReadBack(fields: Fields, steps: seq<Step>, v: Json)
    requires steps != [] && OnlyFits(fields, steps) && Put(fields, steps, v).1
    ensures ReadsBack(fields, steps, v) <==> Undisturbed(fields, steps, v)
    decreases |steps|
  {
    if |steps| > 1 {
      OnlyFitsReadBack(Enter(fields, steps[0]).value.Child(), steps[1..], v);
    }
    hide PassedOver;
    hide Enter;
    if !StillFits(fields, steps, v) {
      assert steps[0].selector.Match?;
    }
    hide StillFits;
  }

  /** Read off path and value: nothing written goes into the field a match selector looks at, or it comes out as its text. */
  predicate NoRewrite(steps: seq<Step>, v: Json)
    requires steps != []
  {
    var step := steps[0];
    if |steps| == 1 then Kept(step, v)
    else
      && NoRewrite(steps[1..], v)
      && (step.selector.Match? ==>
            || steps[1].key != step.selector.key
            || (|steps| == 2 && steps[1].selector.Whole? && Sprint(v) == step.selector.text))
  }

  /** A text no object and no list prints as. */
  predicate Ordinary(text: string) {
    !("map[" <= text) && !("[" <= text)
  }

  predicate OrdinaryTexts(steps: seq<Step>) {
    forall i :: 0 <= i < |steps| && steps[i].selector.Match? ==> Ordinary(steps[i].selector.text)
  }

  /** A write that goes deeper than the field leaves an object or a list there. */
  lemma DeepWritePrints(fields: Fields, steps: seq<Step>, v: Json)
    requires steps != [] && Put(fields, steps, v).1 && !(|steps| == 1 && steps[0].selector.Whole?)
    ensures !Ordinary(SprintField(Put(fields, steps, v).0, steps[0].key))
  {
    var after := Put(fields, steps, v).0;
    assert steps[0].key in after;
    var field := after[steps[0].key];
    assert if steps[0].selector.Whole? then field.Obj? else field.List?;
    hide Enter;
    hide Put;
    assert "map[" <= Sprint(field) || "[" <= Sprint(field);
  }

  /** Path and value settle it: with ordinary match texts, items are left fitting exactly when nothing is rewritten. */
  lemma {:induction false} NoRewriteIff(fields: Fields, steps: seq<Step>, v: Json)
    requires steps != [] && Put(fields, steps, v).1 && OrdinaryTexts(steps)
    ensures Undisturbed(fields, steps, v) <==> NoRewrite(steps, v)
    decreases |steps|
  {
    if |steps| > 1 {
      var child := Enter(fields, steps[0]).value.Child();
      assert forall i :: 0 <= i < |steps| - 1 ==> steps[1..][i] == steps[i + 1];
      NoRewriteIff(child, steps[1..], v);
      if steps[0].selector.Match? && steps[1].key == steps[0].selector.key && !(|steps| == 2 && steps[1].selector.Whole?) {
        DeepWritePrints(child, steps[1..], v);
      }
    }
    hide Enter;
    hide Sprint;
    hide Answers;
    hide Ordinary;
  }

  lemma {:induction false} NoRewriteUndisturbed(fields: Fields, steps: seq<Step>, v: Json)
    requires steps != [] && NoRewrite(steps, v)
    ensures Undisturbed(fields, steps, v)
    decreases |steps|
  {
    if Enter(fields, steps[0]).Some? && |steps| > 1 {
      NoRewriteUndisturbed(Enter(fields, steps[0]).value.Child(), steps[1..], v);
    }
  }

  // ---- What a write leaves alone ----

  /** The two paths go together for a while and then take different keys. */
  predicate Parts(p: seq<Step>, q: seq<Step>) {
    p != [] && q != [] && (p[0].key != q[0].key || (p[0] == q[0] && Parts(p[1..], q[1..])))
  }

  function Common(p: seq<Step>, q: seq<Step>): (n: nat)
    requires Parts(p, q)
    ensures n < |p|
  {
    if p[0].key != q[0].key then 0 else 1 + Common(p[1..], q[1..])
  }

  function Seen(r: Result<Json>): Option<Json> {
    if r.Ok? then Some(r.value) else None
  }

  /** What q reads below a step's item, as far as there is one. */
  function ReadBelow(item: Result<Json>, q: seq<Step>): Option<Json> {
    if item.Ok? then Seen(Get(item.value, q)) else None
  }

  /**
   * The write changes what q reads: it unfits q's item and the next one reads otherwise, or it makes an item
   * whose matched field q reads, or it disturbs q further down.
   */
  predicate Disturbs(fields: Fields, p: seq<Step>, v: Json, q: seq<Step>)
    requires Parts(p, q)
    decreases |p|
  {
    && p[0] == q[0] && Enter(fields, p[0]).Some? && !p[0].selector.Append?
    && var seen := Look(Obj(fields), p[0]);
       if !StillFits(fields, p, v) then ReadBelow(PassedOver(fields, p[0]), q[1..]) != ReadBelow(seen, q[1..])
       else
         || (seen.Err? && p[0].selector.Match? && q[1..] == [Step(p[0].selector.key, Whole)])
         || Disturbs(Enter(fields, p[0]).value.Child(), p[1..], v, q[1..])
  }

  lemma GetFromFresh(fields: Fields, step: Step, q: seq<Step>)
    requires Enter(fields, step).Some? && !step.selector.Append? && q != [] && Look(Obj(fields), step).Err?
    ensures var p := Enter(fields, step).value;
            Get(Obj(p.Child()), q).Ok? <==> step.selector.Match? && q == [Step(step.selector.key, Whole)]
  {
    LookEnter(fields, step);
    var p := Enter(fields, step).value;
    hide Enter;
    if step.selector.Match? && q[0] == Step(step.selector.key, Whole) && |q| > 1 {
      assert Look(Obj(p.Child()), q[0]) == Ok(Str(step.selector.text));
      assert Look(Str(step.selector.text), q[1]).Err?;
    }
  }

  ghost predicate SameRead(v: Json, w: Json, q: seq<Step>) {
    Seen(Get(v, q)) == Seen(Get(w, q))
  }

  lemma FrameStep(fields: Fields, p: seq<Step>, v: Json, q: seq<Step>)
    requires Parts(p, q) && p[0] == q[0]
    requires Enter(fields, p[0]).Some? && !p[0].selector.Append?
    requires var child := Enter(fields, p[0]).value.Child();
             SameRead(Written(fields, p, v), Obj(child), q[1..]) <==> !Disturbs(child, p[1..], v, q[1..])
    ensures SameRead(Obj(Put(fields, p, v).0), Obj(fields), q) <==> !Disturbs(fields, p, v, q)
  {
    var place, seen, written := Enter(fields, p[0]).value, Look(Obj(fields), p[0]), Written(fields, p, v);
    StillFitsKept(fields, p, v);
    LookPlugged(fields, p[0], written);
    if seen.Ok? {
      SeenBelow(fields, p[0], q[1..]);
    } else {
      GetFromFresh(fields, p[0], q[1..]);
      if p[0].selector.Match? {
        WrittenKeepsMade(fields, p, v, q);
      }
    }
    hide Enter;
    hide Look;
    hide PassedOver;
    hide StillFits;
    hide Kept;
    assert Put(fields, p, v).0 == place.Plug(written);
    hide Put;
    hide Written;
    GetThrough(Obj(fields), q);
    GetThrough(Obj(place.Plug(written)), q);
    hide Get;
  }

  /** A path reads what its first step finds, and below that. */
  lemma GetThrough(v: Json, q: seq<Step>)
    requires q != []
    ensures Seen(Get(v, q)) == ReadBelow(Look(v, q[0]), q[1..])
  {
    hide Look;
  }

  lemma SeenBelow(fields: Fields, step: Step, q: seq<Step>)
    requires Enter(fields, step).Some? && !step.selector.Append? && q != [] && Look(Obj(fields), step).Ok?
    ensures SameRead(Look(Obj(fields), step).value, Obj(Enter(fields, step).value.Child()), q)
  {
    LookEnter(fields, step);
    hide Enter;
    var seen := Look(Obj(fields), step).value;
    if !seen.Obj? {
      assert Look(seen, q[0]).Err? && Look(Obj(map[]), q[0]).Err?;
    }
  }

  /** An item made for a match selector keeps its matched field when another one is written. */
  lemma WrittenKeepsMade(fields: Fields, p: seq<Step>, v: Json, q: seq<Step>)
    requires Parts(p, q) && p[0] == q[0] && p[0].selector.Match? && Look(Obj(fields), p[0]).Err?
    ensures q[1..] == [Step(p[0].selector.key, Whole)] && Kept(p[0], Written(fields, p, v)) ==>
              Get(Written(fields, p, v), q[1..]).Ok?
  {
    var k := p[0].selector.key;
    if q[1..] == [Step(k, Whole)] {
      LookEnter(fields, p[0]);
      var p', q' := p[1..], q[1..];
      assert Parts(p', q') && !Parts(p'[1..], q'[1..]);
      var child := Enter(fields, p[0]).value.Child();
      hide Enter;
      PutTouchesKey(child, p[1..], v, k);
    }
  }

  /** A path that takes another key reads the same value, or still none, exactly when the write does not disturb it. */
  lemma {:induction false} FrameExact(fields: Fields, p: seq<Step>, v: Json, q: seq<Step>)
    requires Parts(p, q)
    ensures SameRead(Obj(Put(fields, p, v).0), Obj(fields), q) <==> !Disturbs(fields, p, v, q)
    decreases |p|
  {
    if p[0].key != q[0].key {
      PutTouchesKey(fields, p, v, q[0].key);
    } else if p[0].selector.Append? || Enter(fields, p[0]).None? {
    } else {
      FrameExact(Enter(fields, p[0]).value.Child(), p[1..], v, q[1..]);
      FrameStep(fields, p, v, q);
    }
  }

  /** Nothing on the common way uses a match selector: no other path can notice. */
  lemma PlainFrame(fields: Fields, p: seq<Step>, v: Json, q: seq<Step>)
    requires Parts(p, q) && forall i :: 0 <= i < Common(p, q) ==> !p[i].selector.Match?
    ensures SameRead(Obj(Put(fields, p, v).0), Obj(fields), q)
  {
    PlainUndisturbed(fields, p, v, q);
    FrameExact(fields, p, v, q);
  }

  lemma {:induction false} PlainUndisturbed(fields: Fields, p: seq<Step>, v: Json, q: seq<Step>)
    requires Parts(p, q) && forall i :: 0 <= i < Common(p, q) ==> !p[i].selector.Match?
    ensures !Disturbs(fields, p, v, q)
    decreases |p|
  {
    if p[0].key == q[0].key && Enter(fields, p[0]).Some? {
      assert forall i :: 0 <= i < |p| - 1 ==> p[1..][i] == p[i + 1];
      PlainUndisturbed(Enter(fields, p[0]).value.Child(), p[1..], v, q[1..]);
    }
  }

  lemma EnterEmpty(key: string, k: string, text: string)
    ensures var p := Enter(map[], Step(key, Match(k, text)));
            p.Some? && p.value.Child() == map[k := Str(text)]
            && forall v :: p.value.Plug(v) == map[key := List([v])]
  {
    var p := Enter(map[], Step(key, Match(k, text))).value;
    assert p.list == [Obj(map[k := Str(text)])] && p.index == Some(0);
    assert forall v: Json :: p.list[0 := v] == [v];
  }

  /** The frame law does fail: naming an item by its id makes one, and its id then reads where nothing did. */
  lemma MadeItemIsRead(v: Json)
    ensures var item := Step("people", Match("id", "ada"));
            var p, q, before: Fields := [item, Step("name", Whole)], [item, Step("id", Whole)], map[];
            Parts(p, q) && Put(before, p, v).1
            && Get(Obj(before), q).Err? && Get(Obj(Put(before, p, v).0), q) == Ok(Str("ada"))
  {
    var item := Step("people", Match("id", "ada"));
    var p, q, before: Fields := [item, Step("name", Whole)], [item, Step("id", Whole)], map[];
    assert p[1..] == [Step("name", Whole)] && q[1..] == [Step("id", Whole)];
    PutFails(before, p, v);
    EnterEmpty("people", "id", "ada");
    var made: Fields := map["id" := Str("ada"), "name" := v];
    var after: Fields := map["people" := List([Obj(made)])];
    assert Put(map["id" := Str("ada")], p[1..], v).0 == made;
    assert Put(before, p, v).0 == after;
    FindIs([Obj(made)], "id", "ada", 0);
    assert Look(Obj(after), item) == Ok(Obj(made));
    assert Get(Obj(made), q[1..]) == Ok(Str("ada"));
  }

  /** Set-then-get does fail: renaming the very field the selector looks at loses the item. */
  lemma RenamedItemIsLost()
    ensures var p, before: Fields := [Step("people", Match("id", "ada")), Step("id", Whole)], map[];
            Put(before, p, Str("bob")).1 && Get(Obj(Put(before, p, Str("bob")).0), p).Err?
  {
    var p, before: Fields := [Step("people", Match("id", "ada")), Step("id", Whole)], map[];
    assert p[1..] == [Step("id", Whole)];
    PutFails(before, p, Str("bob"));
    assert Put(map["id" := Str("ada")], p[1..], Str("bob")).0 == map["id" := Str("bob")];
    EnterEmpty("people", "id", "ada");
    assert !Answers(Obj(map["id" := Str("bob")]), "id", "ada");
  }
}
