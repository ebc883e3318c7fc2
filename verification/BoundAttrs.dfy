/** Attributes and groups bound to a logger (go/logger.go:31-74, go/logger.go:154-195): the reverse fold that
    nests them, its forward meaning, and the slices that sibling loggers must not share. */
module BoundAttrs {

  datatype Attr = Attr(key: string, value: Value)
  datatype Value = Leaf(text: string) | Group(attrs: seq<Attr>)

  /** One WithGroup or WithAttrs call. */
  datatype Bound = InGroup(name: string) | With(attrs: seq<Attr>)

  // ---- slog's part --------------------------------------------------------------------------------

  predicate EmptyGroup(a: Attr) { a.value == Group([]) }

  /** slog.GroupValue and Record.AddAttrs leave out empty groups. */
  function WithoutEmpty(attrs: seq<Attr>): seq<Attr> {
    if attrs == [] then []
    else (if EmptyGroup(attrs[0]) then [] else [attrs[0]]) + WithoutEmpty(attrs[1..])
  }

  // ---- the fold -----------------------------------------------------------------------------------

  /** One turn of the loop: cur is everything bound after the step. */
  function Fold(step: Bound, cur: seq<Attr>): seq<Attr> {
    match step
    case With(attrs) => attrs + cur
    case InGroup(name) => if cur == [] then [] else [Attr(name, Group(WithoutEmpty(cur)))]
  }

  function FoldAll(bound: seq<Bound>, record: seq<Attr>): seq<Attr> {
    if bound == [] then record else Fold(bound[0], FoldAll(bound[1..], record))
  }

  /** The record's attributes after applyBoundAttrs. */
  function Applied(bound: seq<Bound>, record: seq<Attr>): seq<Attr> {
    if bound == [] then record else WithoutEmpty(FoldAll(bound, record))
  }

  // ---- its meaning --------------------------------------------------------------------------------

  /** A leaf attribute with the groups it sits under, outermost first. */
  datatype Placed = Placed(path: seq<string>, key: string, text: string)

  function FlatAttr(path: seq<string>, a: Attr): seq<Placed>
    decreases a, 0
  {
    match a.value
    case Leaf(text) => [Placed(path, a.key, text)]
    case Group(attrs) => Flat(path + [a.key], attrs)
  }

  function Flat(path: seq<string>, attrs: seq<Attr>): seq<Placed>
    decreases attrs, 1
  {
    if attrs == [] then [] else FlatAttr(path, attrs[0]) + Flat(path, attrs[1..])
  }

  /** slog's rule, read forwards: an attribute sits under exactly the groups open when it was bound, and the
      record's own attributes under all of them. */
  function Forward(path: seq<string>, bound: seq<Bound>, record: seq<Attr>): seq<Placed>
    decreases |bound|
  {
    if bound == [] then Flat(path, record)
    else
      match bound[0]
      case With(attrs) => Flat(path, attrs) + Forward(path, bound[1..], record)
      case InGroup(name) => Forward(path + [name], bound[1..], record)
  }

  lemma {:induction false} FlatJoin(path: seq<string>, a: seq<Attr>, b: seq<Attr>)
    ensures Flat(path, a + b) == Flat(path, a) + Flat(path, b)
    decreases |a|
  {
    hide FlatAttr;
    if a == [] {
      assert a + b == b;
    } else {
      FlatJoin(path, a[1..], b);
      assert (a + b)[1..] == a[1..] + b;
    }
  }

  lemma {:induction false} FlatWithoutEmpty(path: seq<string>, attrs: seq<Attr>)
    ensures Flat(path, WithoutEmpty(attrs)) == Flat(path, attrs)
    decreases |attrs|
  {
    if attrs != [] {
      FlatWithoutEmpty(path, attrs[1..]);
      var head := if EmptyGroup(attrs[0]) then [] else [attrs[0]];
      FlatJoin(path, head, WithoutEmpty(attrs[1..]));
      assert [attrs[0]][1..] == [];
      assert Flat(path, head) == FlatAttr(path, attrs[0]);
    }
  }

  lemma {:induction false} FoldMeansForward(path: seq<string>, bound: seq<Bound>, record: seq<Attr>)
    ensures Flat(path, FoldAll(bound, record)) == Forward(path, bound, record)
    decreases |bound|
  {
    if bound != [] {
      var cur := FoldAll(bound[1..], record);
      match bound[0]
      case With(attrs) =>
        FoldMeansForward(path, bound[1..], record);
        FlatJoin(path, attrs, cur);
      case InGroup(name) =>
        FoldMeansForward(path + [name], bound[1..], record);
        if cur != [] {
          FlatWithoutEmpty(path + [name], cur);
          var wrapped := [Attr(name, Group(WithoutEmpty(cur)))];
          assert wrapped[1..] == [];
        }
    }
  }

  /** The reverse fold has the forward meaning, attribute for attribute and in order. */
  lemma AppliedMeansForward(bound: seq<Bound>, record: seq<Attr>)
    ensures Flat([], Applied(bound, record)) == Forward([], bound, record)
  {
    FoldMeansForward([], bound, record);
    FlatWithoutEmpty([], FoldAll(bound, record));
  }

  // ---- empty groups are gone ----------------------------------------------------------------------

  /** No group at any depth is empty. */
  predicate Full(attrs: seq<Attr>)
    decreases attrs, 1
  {
    forall i :: 0 <= i < |attrs| ==> FullAttr(attrs[i])
  }

  predicate FullAttr(a: Attr)
    decreases a, 0
  {
    match a.value
    case Leaf(_) => true
    case Group(attrs) => attrs != [] && Full(attrs)
  }

  /** What slog.GroupValue builds: an empty group may stand at the top, never inside another group. */
  predicate Built(attrs: seq<Attr>) {
    forall i :: 0 <= i < |attrs| ==> EmptyGroup(attrs[i]) || FullAttr(attrs[i])
  }

  predicate BuiltSteps(bound: seq<Bound>) {
    forall i :: 0 <= i < |bound| ==> bound[i].With? ==> Built(bound[i].attrs)
  }

  lemma {:induction false} WithoutEmptyIsFull(attrs: seq<Attr>)
    requires Built(attrs)
    ensures Full(WithoutEmpty(attrs))
  {
    if attrs != [] {
      WithoutEmptyIsFull(attrs[1..]);
      assert EmptyGroup(attrs[0]) || FullAttr(attrs[0]);
    }
  }

  lemma {:induction false} FoldIsBuilt(bound: seq<Bound>, record: seq<Attr>)
    requires BuiltSteps(bound) && Built(record)
    ensures Built(FoldAll(bound, record))
  {
    if bound != [] {
      FoldIsBuilt(bound[1..], record);
      var cur := FoldAll(bound[1..], record);
      assert bound[0].With? ==> Built(bound[0].attrs);
      if bound[0].InGroup? && cur != [] {
        WithoutEmptyIsFull(cur);
        var inner := WithoutEmpty(cur);
        assert inner != [] ==> FullAttr(Attr(bound[0].name, Group(inner)));
      }
    }
  }

  /** A record whose logger has bound anything carries no empty group at any depth. */
  lemma AppliedIsFull(bound: seq<Bound>, record: seq<Attr>)
    requires bound != [] && BuiltSteps(bound) && Built(record)
    ensures Full(Applied(bound, record))
  {
    FoldIsBuilt(bound, record);
    WithoutEmptyIsFull(FoldAll(bound, record));
  }

  /** So with nothing to place, nothing is left: groups alone add no attribute. */
  lemma {:induction false} FullAttrPlacesSomething(path: seq<string>, a: Attr)
    requires FullAttr(a)
    ensures FlatAttr(path, a) != []
    decreases a
  {
    if a.value.Group? {
      var attrs := a.value.attrs;
      assert FullAttr(attrs[0]);
      FullAttrPlacesSomething(path + [a.key], attrs[0]);
    }
  }

  lemma NothingPlacedNothingLeft(bound: seq<Bound>, record: seq<Attr>)
    requires bound != [] && BuiltSteps(bound) && Built(record)
    ensures Applied(bound, record) == [] <==> Forward([], bound, record) == []
  {
    AppliedIsFull(bound, record);
    AppliedMeansForward(bound, record);
    var out := Applied(bound, record);
    if out != [] {
      assert FullAttr(out[0]);
      FullAttrPlacesSomething([], out[0]);
    }
  }

  // ---- deriving handlers --------------------------------------------------------------------------

  /** A Go slice: the first `len` cells of an array that other slices may share. */
  datatype Slice<!T> = Slice(cells: array<T>, len: nat)

  datatype Step = OpenGroup(name: string) | Bind(attrs: array<Attr>)

  ghost predicate SliceOk<T>(s: Slice<T>) { s.len <= s.cells.Length }

  /** slices.Clone: a new array, of any capacity that holds the elements. */
  method Clone<T(0)>(s: Slice<T>, capacity: nat) returns (t: Slice<T>)
    requires SliceOk(s) && s.len <= capacity
    ensures SliceOk(t) && t.len == s.len && fresh(t.cells) && t.cells.Length == capacity
    ensures t.cells[..t.len] == s.cells[..s.len]
  {
    var cells := new T[capacity];
    for i := 0 to s.len
      invariant cells[..i] == s.cells[..i]
    {
      cells[i] := s.cells[i];
    }
    t := Slice(cells, s.len);
  }

  /** append: writes into the array it was given when there is room past len, else into a new one. */
  method Append<T(0)>(s: Slice<T>, x: T) returns (t: Slice<T>)
    requires SliceOk(s)
    modifies s.cells
    ensures SliceOk(t) && t.cells[..t.len] == old(s.cells[..s.len]) + [x]
    ensures t.cells == s.cells || fresh(t.cells)
    ensures s.len < s.cells.Length ==> t.cells == s.cells
    ensures t.cells != s.cells ==> s.cells[..] == old(s.cells[..])
  {
    if s.len < s.cells.Length {
      s.cells[s.len] := x;
      t := Slice(s.cells, s.len + 1);
    } else {
      var grown := Clone(s, 2 * s.len + 1);
      grown.cells[s.len] := x;
      t := Slice(grown.cells, s.len + 1);
    }
  }

  class Handler {
    const bound: Slice<Step>

    constructor (b: Slice<Step>)
      ensures bound == b
    {
      bound := b;
    }

    ghost predicate Valid() { SliceOk(bound) }

    ghost function Steps(): seq<Step>
      requires Valid()
      reads bound.cells
    {
      bound.cells[..bound.len]
    }

    /** The arrays whose contents decide what this handler does. */
    ghost function Reach(): (r: set<object>)
      requires Valid()
      reads bound.cells
      ensures bound.cells in r
    {
      {bound.cells} + set s | s in Steps() && s.Bind? :: s.attrs
    }

    /** What has been bound to this handler, as values. */
    ghost function Meaning(): seq<Bound>
      requires Valid()
      reads bound.cells, Reach()
    {
      seq(bound.len, i requires 0 <= i < bound.len reads bound.cells, Reach() =>
        (match bound.cells[i]
         case OpenGroup(name) => InGroup(name)
         case Bind(attrs) => (assert attrs in Reach() by { assert bound.cells[i] in Steps(); } With(attrs[..]))))
    }

    /** Folds what is bound into the record, last step first. */
    method ApplyBoundAttrs(record: seq<Attr>) returns (out: seq<Attr>)
      requires Valid()
      ensures out == Applied(Meaning(), record)
    {
      if bound.len == 0 { return record; }
      ghost var meaning := Meaning();
      var cur := record;
      var i := bound.len - 1;
      while i >= 0
        invariant -1 <= i < bound.len == |meaning|
        invariant cur == FoldAll(meaning[i + 1..], record)
      {
        assert meaning[i..][1..] == meaning[i + 1..];
        match bound.cells[i] {
          case Bind(attrs) => cur := attrs[..] + cur;
          case OpenGroup(name) =>
            if |cur| != 0 { cur := [Attr(name, Group(WithoutEmpty(cur)))]; }
        }
        assert cur == Fold(meaning[i], FoldAll(meaning[i + 1..], record));
        i := i - 1;
      }
      assert meaning[0..] == meaning;
      out := WithoutEmpty(cur);
    }

    method WithAttrs(attrs: array<Attr>, spare: nat) returns (h: Handler)
      requires Valid()
      ensures h.Valid()
      ensures attrs.Length == 0 ==> h == this
      ensures fresh(h.Reach() - Reach())
      ensures attrs.Length > 0 ==> fresh(h) && h.Meaning() == Meaning() + [With(attrs[..])]
    {
      if attrs.Length == 0 { return this; }
      var own := Clone(Slice(attrs, attrs.Length), attrs.Length);
      assert own.cells[..] == attrs[..];
      h := Extended(Bind(own.cells), spare);
    }

    method WithGroup(name: string, spare: nat) returns (h: Handler)
      requires Valid()
      ensures h.Valid()
      ensures name == "" ==> h == this
      ensures fresh(h.Reach() - Reach())
      ensures name != "" ==> fresh(h) && h.Meaning() == Meaning() + [InGroup(name)]
    {
      if name == "" { return this; }
      h := Extended(OpenGroup(name), spare);
    }

    method Extended(step: Step, spare: nat) returns (h: Handler)
      requires Valid()
      ensures h.Valid() && fresh(h) && fresh(h.bound.cells)
      ensures h.Steps() == Steps() + [step]
    {
      var cp := Clone(bound, bound.len + spare);
      var longer := Append(cp, step);
      h := new Handler(longer);
    }
  }

  // ---- any number of handlers ---------------------------------------------------------------------

  /** What a host can do: derive a handler from any it holds, make an array of attributes, and overwrite any
      cell of an array it holds, whether or not a handler was derived with it. */
  datatype Command =
    | Attach(parent: nat, attrs: nat, spare: nat)
    | OpenIn(parent: nat, name: string, spare: nat)
    | Make(contents: seq<Attr>)
    | Overwrite(at: nat, cell: nat, later: Attr)

  /** Every handler still means what it meant when it was made, and reaches no array of the host's. */
  ghost predicate Kept(handlers: seq<Handler>, meanings: seq<seq<Bound>>, arrays: seq<array<Attr>>)
    reads *
  {
    |meanings| == |handlers| && forall i :: 0 <= i < |handlers| ==> KeptOne(handlers[i], meanings[i], arrays)
  }

  ghost predicate KeptOne(h: Handler, meaning: seq<Bound>, arrays: seq<array<Attr>>)
    reads *
  {
    h.Valid() && h.Meaning() == meaning && forall a :: a in arrays ==> a !in h.Reach()
  }

  /** The meaning a command gives the handler it makes. */
  ghost function Made(meanings: seq<seq<Bound>>, command: Command, attrs: seq<Attr>): seq<Bound>
    requires (command.Attach? || command.OpenIn?) && command.parent < |meanings|
  {
    var was := meanings[command.parent];
    if command.Attach? then (if attrs == [] then was else was + [With(attrs)])
    else if command.name == "" then was
    else was + [InGroup(command.name)]
  }

  method Turn(handlers: seq<Handler>, ghost meanings: seq<seq<Bound>>, arrays: seq<array<Attr>>, command: Command)
    returns (after: seq<Handler>, ghost meant: seq<seq<Bound>>, held: seq<array<Attr>>)
    requires Kept(handlers, meanings, arrays)
    modifies set a | a in arrays
    ensures Kept(after, meant, held) && handlers <= after && meanings <= meant && arrays <= held
    ensures forall a :: a in held ==> a in arrays || fresh(a)
    ensures command.Attach? && command.parent < |handlers| && command.attrs < |arrays| ==>
      meant == meanings + [Made(meanings, command, old(arrays[command.attrs][..]))]
    ensures command.OpenIn? && command.parent < |handlers| ==> meant == meanings + [Made(meanings, command, [])]
    ensures command.Make? || command.Overwrite? ==> after == handlers && meant == meanings
  {
    after, meant, held := handlers, meanings, arrays;
    match command {
      case Attach(parent, attrs, spare) =>
        if parent < |handlers| && attrs < |arrays| {
          var h := Derived(handlers, meanings, arrays, command);
          after, meant := handlers + [h], meanings + [Made(meanings, command, arrays[attrs][..])];
        }
      case OpenIn(parent, name, spare) =>
        if parent < |handlers| {
          var h := Derived(handlers, meanings, arrays, command);
          after, meant := handlers + [h], meanings + [Made(meanings, command, [])];
        }
      case Make(contents) =>
        var a := Allocated(contents);
        held := arrays + [a];
        forall i | 0 <= i < |handlers| ensures KeptOne(handlers[i], meanings[i], held) {
          assert old(KeptOne(handlers[i], meanings[i], arrays));
        }
      case Overwrite(at, cell, later) =>
        if at < |arrays| && cell < arrays[at].Length {
          arrays[at][cell] := later;
          forall i | 0 <= i < |handlers| ensures KeptOne(handlers[i], meanings[i], arrays) {
            assert old(KeptOne(handlers[i], meanings[i], arrays));
          }
        }
    }
  }

  method Allocated(contents: seq<Attr>) returns (a: array<Attr>)
    ensures fresh(a) && a[..] == contents
  {
    a := new Attr[|contents|](i requires 0 <= i < |contents| => contents[i]);
  }

  method Derived(handlers: seq<Handler>, ghost meanings: seq<seq<Bound>>, arrays: seq<array<Attr>>, command: Command)
    returns (h: Handler)
    requires Kept(handlers, meanings, arrays) && (command.Attach? || command.OpenIn?) && command.parent < |handlers|
    requires command.Attach? ==> command.attrs < |arrays|
    ensures Kept(handlers, meanings, arrays)
    ensures KeptOne(h, Made(meanings, command, if command.Attach? then arrays[command.attrs][..] else []), arrays)
  {
    ghost var parent := handlers[command.parent];
    assert KeptOne(parent, meanings[command.parent], arrays);
    if command.Attach? {
      h := handlers[command.parent].WithAttrs(arrays[command.attrs], command.spare);
    } else {
      h := handlers[command.parent].WithGroup(command.name, command.spare);
    }
    forall i | 0 <= i < |handlers| ensures KeptOne(handlers[i], meanings[i], arrays) {
      assert old(KeptOne(handlers[i], meanings[i], arrays));
    }
  }

  /** Over every run of derivations and overwrites each handler keeps the meaning it was made with: siblings,
      children and the host's own arrays never affect it. */
  method Session(mine: seq<Handler>, ghost meanings: seq<seq<Bound>>, own: seq<array<Attr>>, commands: seq<Command>)
    returns (handlers: seq<Handler>, ghost meant: seq<seq<Bound>>, arrays: seq<array<Attr>>)
    requires Kept(mine, meanings, own)
    modifies set a | a in own
    ensures Kept(handlers, meant, arrays) && mine <= handlers && meanings <= meant
    ensures forall i :: 0 <= i < |mine| ==> handlers[i].Valid() && handlers[i].Meaning() == meanings[i]
  {
    handlers, meant, arrays := mine, meanings, own;
    for i := 0 to |commands|
      invariant Kept(handlers, meant, arrays) && mine <= handlers && meanings <= meant
      invariant forall a :: a in arrays ==> a in own || fresh(a)
    {
      handlers, meant, arrays := Turn(handlers, meant, arrays, commands[i]);
    }
    forall i | 0 <= i < |mine| ensures handlers[i].Valid() && handlers[i].Meaning() == meanings[i] {
      assert KeptOne(handlers[i], meant[i], arrays);
    }
  }

  /** Why the step slice is cloned: appending twice to one slice with room to spare leaves the first result
      holding the second's element. */
  method AppendTwiceClobbers<T(0)>(s: Slice<T>, x: T, y: T) returns (t: Slice<T>, u: Slice<T>)
    requires SliceOk(s) && s.len < s.cells.Length
    modifies s.cells
    ensures SliceOk(t) && SliceOk(u) && t.cells[..t.len] == u.cells[..u.len] == old(s.cells[..s.len]) + [y]
  {
    t := Append(s, x);
    assert |t.cells[..t.len]| == s.len + 1;
    assert s.cells[..s.len] == t.cells[..t.len][..s.len];
    u := Append(s, y);
  }
}
