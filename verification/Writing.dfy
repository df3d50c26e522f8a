/** What a write at a key path leaves, told of the object before and the object after alone. */
module Writing {
  import opened Prelude
  import opened JsonCodec
  import opened KeyPath
  import opened KeyStore
  import JsonText

  /** The list at a key; none where something else or nothing stands. */
  function ListAt(fields: Fields, key: string): seq<Json> {
    if key in fields && fields[key].List? then fields[key].items else []
  }

  /** The object with this UUID, name or whatever else the selector asks for. */
  predicate Has(item: Json, key: string, text: string) {
    item.Obj? && Sprint(if key in item.fields then item.fields[key] else Null) == text
  }

  /** How the field is put into words to compare: texts as they are, numbers in decimal, a missing one as nothing. */
  lemma Worded(v: Json)
    ensures v.Str? ==> Sprint(v) == v.s
    ensures v.Bool? ==> Sprint(v) == if v.b then "true" else "false"
    ensures v.Null? ==> Sprint(v) == "<nil>"
    ensures v.Int? && v.n >= 0 ==> JsonText.Numeral(Sprint(v), v.n)
    ensures v.Int? && v.n < 0 ==> Sprint(v) != "" && Sprint(v)[0] == '-' && JsonText.Numeral(Sprint(v)[1..], -(v.n as int))
  {
    if v.Int? {
      JsonText.NumberText(v.n, CHANNEL_STYLE);
    }
    hide JsonText.Numeral;
  }

  predicate FirstWith(list: seq<Json>, key: string, text: string, i: nat) {
    i < |list| && Has(list[i], key, text) && forall j :: 0 <= j < i ==> !Has(list[j], key, text)
  }

  predicate NoneWith(list: seq<Json>, key: string, text: string) {
    forall j :: 0 <= j < |list| ==> !Has(list[j], key, text)
  }

  /** From one list to another only item i differs, which the rest of the path was written in. */
  ghost predicate OneChanged(list: seq<Json>, i: nat, rest: seq<Step>, v: Json, now: seq<Json>)
    decreases |rest|, 1
  {
    && |now| == |list| && i < |list| && (forall j :: 0 <= j < |list| && j != i ==> now[j] == list[j])
    && Goes(list[i], rest, v, now[i])
  }

  /** What the rest of a path makes of what stood there: the value itself, or the object there, or a new one, written in. */
  ghost predicate Goes(held: Json, rest: seq<Step>, v: Json, now: Json)
    decreases |rest|, 0
  {
    if rest == [] then now == v
    else now.Obj? && Leaves(if held.Obj? then held.fields else map[], rest, v, now.fields)
  }

  /** An empty object for each index the list is short of. */
  function Extended(list: seq<Json>, n: nat): seq<Json> {
    list + seq(if n < |list| then 0 else n + 1 - |list|, _ => Obj(map[]))
  }

  /**
   * The object after the write: no other key changes; under the step's own key a field is replaced, an item is
   * appended, or just the one item at the index or with the matching field is, made first where it is not there.
   * A negative index leaves the object alone.
   */
  ghost predicate Leaves(before: Fields, steps: seq<Step>, v: Json, after: Fields)
    requires steps != []
    decreases |steps| - 1, 2
  {
    var key, rest, list := steps[0].key, steps[1..], ListAt(before, steps[0].key);
    if steps[0].selector.At? && steps[0].selector.index < 0 then after == before
    else
      && after.Keys == before.Keys + {key} && (forall k :: k in before && k != key ==> after[k] == before[k])
      && match steps[0].selector
         case Whole => Goes(if key in before then before[key] else Obj(map[]), rest, v, after[key])
         case Append => after[key].List? && OneChanged(list + [Obj(map[])], |list|, rest, v, after[key].items)
         case At(n) => after[key].List? && OneChanged(Extended(list, n), n, rest, v, after[key].items)
         case Match(k, text) =>
           after[key].List? &&
           if NoneWith(list, k, text) then OneChanged(list + [Obj(map[k := Str(text)])], |list|, rest, v, after[key].items)
           else exists i :: FirstWith(list, k, text, i) && OneChanged(list, i, rest, v, after[key].items)
  }

  // ---- It is what the writer does ----

  lemma {:induction false} PaddedIs(list: seq<Json>, n: nat)
    ensures Padded(list, n) == Extended(list, n)
    decreases n + 1 - |list|
  {
    if |list| <= n {
      PaddedIs(list + [Obj(map[])], n);
    }
  }

  /** The item a step leads to, and the list it stands in. */
  lemma EnteredItem(fields: Fields, step: Step)
    requires Enter(fields, step).Some? && !step.selector.Whole?
    ensures var p, list := Enter(fields, step).value, ListAt(fields, step.key);
            && p.fields == fields && p.key == step.key && p.index.Some?
            && match step.selector
               case Append => p.list == list + [Obj(map[])] && p.index.value == |list|
               case At(n) => p.list == Extended(list, n) && p.index.value == n
               case Match(k, text) =>
                 if NoneWith(list, k, text) then p.list == list + [Obj(map[k := Str(text)])] && p.index.value == |list|
                 else p.list == list && FirstWith(list, k, text, p.index.value)
  {
    hide Sprint;
    match step.selector
    case Match(k, text) =>
      var list := ListAt(fields, step.key);
      assert forall item: Json :: Answers(item, k, text) <==> Has(item, k, text);
      hide Answers;
      hide Has;
    case At(n) => PaddedIs(ListAt(fields, step.key), n);
    case _ =>
  }

  lemma ItemChanged(list: seq<Json>, i: nat, rest: seq<Step>, v: Json, inner: Json)
    requires i < |list| && Goes(list[i], rest, v, inner)
    ensures OneChanged(list, i, rest, v, list[i := inner])
  {
    hide Goes;
  }

  lemma PlugLeaves(fields: Fields, steps: seq<Step>, v: Json, inner: Json)
    requires steps != [] && Enter(fields, steps[0]).Some? && Goes(Enter(fields, steps[0]).value.Held(), steps[1..], v, inner)
    ensures Leaves(fields, steps, v, Enter(fields, steps[0]).value.Plug(inner))
  {
    hide Goes;
    if steps[0].selector.Whole? {
      hide OneChanged;
    } else {
      EnteredItem(fields, steps[0]);
      hide Enter;
      hide ListAt;
      hide Extended;
      hide FirstWith;
      hide NoneWith;
      hide OneChanged;
      var p := Enter(fields, steps[0]).value;
      ItemChanged(p.list, p.index.value, steps[1..], v, inner);
    }
  }

  lemma {:induction false} PutLeaves(fields: Fields, steps: seq<Step>, v: Json)
    requires steps != []
    ensures Leaves(fields, steps, v, Put(fields, steps, v).0)
    decreases |steps|
  {
    if Enter(fields, steps[0]).Some? {
      var p := Enter(fields, steps[0]).value;
      if |steps| == 1 {
        assert Goes(p.Held(), steps[1..], v, v);
        PlugLeaves(fields, steps, v, v);
      } else {
        PutLeaves(p.Child(), steps[1..], v);
        assert Goes(p.Held(), steps[1..], v, Obj(Put(p.Child(), steps[1..], v).0));
        PlugLeaves(fields, steps, v, Obj(Put(p.Child(), steps[1..], v).0));
      }
      hide Leaves;
      hide Enter;
    }
  }

  // ---- And nothing else is ----

  lemma {:induction false} GoesOneWay(held: Json, rest: seq<Step>, v: Json, a: Json, b: Json)
    requires Goes(held, rest, v, a) && Goes(held, rest, v, b)
    ensures a == b
    decreases |rest|, 0
  {
    if rest != [] {
      LeavesOneWay(if held.Obj? then held.fields else map[], rest, v, a.fields, b.fields);
    }
  }

  lemma ChangedOneWay(list: seq<Json>, i: nat, rest: seq<Step>, v: Json, a: seq<Json>, b: seq<Json>)
    requires OneChanged(list, i, rest, v, a) && OneChanged(list, i, rest, v, b)
    ensures a == b
    decreases |rest|, 1
  {
    GoesOneWay(list[i], rest, v, a[i], b[i]);
    hide Goes;
  }

  lemma {:induction false} LeavesOneWay(before: Fields, steps: seq<Step>, v: Json, a: Fields, b: Fields)
    requires steps != [] && Leaves(before, steps, v, a) && Leaves(before, steps, v, b)
    ensures a == b
    decreases |steps| - 1, 2
  {
    var key, rest, list := steps[0].key, steps[1..], ListAt(before, steps[0].key);
    if !(steps[0].selector.At? && steps[0].selector.index < 0) {
      assert a[key] == b[key] by {
        hide OneChanged;
        hide Goes;
        match steps[0].selector
        case Whole => GoesOneWay(if key in before then before[key] else Obj(map[]), rest, v, a[key], b[key]);
        case Append => ChangedOneWay(list + [Obj(map[])], |list|, rest, v, a[key].items, b[key].items);
        case At(n) => ChangedOneWay(Extended(list, n), n, rest, v, a[key].items, b[key].items);
        case Match(k, text) =>
          if NoneWith(list, k, text) {
            ChangedOneWay(list + [Obj(map[k := Str(text)])], |list|, rest, v, a[key].items, b[key].items);
          } else {
            var i :| FirstWith(list, k, text, i) && OneChanged(list, i, rest, v, a[key].items);
            var j :| FirstWith(list, k, text, j) && OneChanged(list, j, rest, v, b[key].items);
            OnlyFirst(list, k, text, i, j);
            ChangedOneWay(list, i, rest, v, a[key].items, b[key].items);
          }
      }
      hide OneChanged;
      hide Goes;
    }
  }

  lemma OnlyFirst(list: seq<Json>, key: string, text: string, i: nat, j: nat)
    requires FirstWith(list, key, text, i) && FirstWith(list, key, text, j)
    ensures i == j
  {
    hide Has;
  }

  /** A write leaves exactly that, partial writes included. */
  lemma LeavesIff(fields: Fields, steps: seq<Step>, v: Json, after: Fields)
    requires steps != []
    ensures Leaves(fields, steps, v, after) <==> after == Put(fields, steps, v).0
  {
    PutLeaves(fields, steps, v);
    if Leaves(fields, steps, v, after) {
      LeavesOneWay(fields, steps, v, after, Put(fields, steps, v).0);
    }
    hide Leaves;
    hide Put;
  }

  /** Appending keeps every item there was, in place, and adds one. */
  lemma AppendKeepsItems(fields: Fields, steps: seq<Step>, v: Json)
    requires steps != [] && steps[0].selector.Append?
    ensures var was, now := ListAt(fields, steps[0].key), ListAt(Put(fields, steps, v).0, steps[0].key);
            |now| == |was| + 1 && now[..|was|] == was && Goes(Obj(map[]), steps[1..], v, now[|was|])
  {
    PutLeaves(fields, steps, v);
    hide Put;
    hide Goes;
  }

  // ---- Reading ----

  /** What a path leads to: field by field, the item at the index, or the first item with the field asked for. */
  ghost predicate Reaches(v: Json, steps: seq<Step>, found: Json)
    decreases |steps|
  {
    if steps == [] then found == v
    else
      && v.Obj? && steps[0].key in v.fields
      && var at, rest := v.fields[steps[0].key], steps[1..];
         match steps[0].selector
         case Whole => Reaches(at, rest, found)
         case At(n) => at.List? && 0 <= n < |at.items| && Reaches(at.items[n], rest, found)
         case Match(k, text) => at.List? && exists i: nat :: FirstWith(at.items, k, text, i) && Reaches(at.items[i], rest, found)
         case Append => false
  }

  lemma PickedIs(list: seq<Json>, key: string, text: string)
    ensures KeyStore.Picked(list, key, text).Ok? <==> exists i: nat :: FirstWith(list, key, text, i)
    ensures forall i: nat :: FirstWith(list, key, text, i) ==> KeyStore.Picked(list, key, text) == Ok(list[i])
  {
    var n := Find(list, key, text);
    assert forall item: Json :: Answers(item, key, text) <==> Has(item, key, text);
    hide Answers;
    hide Has;
    hide Find;
    if n < |list| {
      assert FirstWith(list, key, text, n);
    }
    forall i: nat | FirstWith(list, key, text, i)
      ensures KeyStore.Picked(list, key, text) == Ok(list[i])
    {
      if n < |list| {
        OnlyFirst(list, key, text, i, n);
      }
    }
  }

  /** Reading finds exactly what the path leads to, and fails where it leads nowhere. */
  lemma {:induction false} ReachesIff(v: Json, steps: seq<Step>, found: Json)
    ensures Get(v, steps) == Ok(found) <==> Reaches(v, steps, found)
    decreases |steps|
  {
    if steps != [] && v.Obj? && steps[0].key in v.fields {
      var at, rest := v.fields[steps[0].key], steps[1..];
      match steps[0].selector
      case Whole => ReachesIff(at, rest, found);
      case At(n) =>
        if at.List? && 0 <= n < |at.items| {
          ReachesIff(at.items[n], rest, found);
        }
      case Match(k, text) =>
        if at.List? {
          PickedIs(at.items, k, text);
          hide KeyStore.Picked;
          hide FirstWith;
          if KeyStore.Picked(at.items, k, text).Ok? {
            ReachesIff(KeyStore.Picked(at.items, k, text).value, rest, found);
          }
        }
      case Append =>
    }
  }
}
