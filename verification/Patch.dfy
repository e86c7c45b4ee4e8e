/**
 How changes to headers and arguments travel: the loops of FetchChanges that write a patch, the meaning of
 a patch for the gateway that applies it, and the proofs that the two fit together. Map iteration order is
 left open: the loops pick any name that is left.
 */
module Patch {
  import opened Wrappers

  /** A text entry of a message; an entry without a value asks for the name to be deleted. */
  datatype Entry = Entry(name: string, value: Option<string>)

  type Values = map<string, seq<string>>

  function Text(value: Option<string>): (text: string)
    ensures value.None? ==> text == ""
  {
    if value.Some? then value.value else ""
  }

  function Add(m: Values, name: string, value: string): Values {
    m[name := (if name in m then m[name] else []) + [value]]
  }

  /** The map that decoding a message's entries with Add builds. */
  function Group(entries: seq<Entry>): Values {
    if entries == [] then map[] else
      var last := entries[|entries| - 1];
      Add(Group(entries[..|entries| - 1]), last.name, Text(last.value))
  }

  /** The values of the entries named `name`, in order. */
  function Project(entries: seq<Entry>, name: string): seq<Option<string>> {
    if entries == [] then [] else
      var last := entries[|entries| - 1];
      Project(entries[..|entries| - 1], name) + (if last.name == name then [last.value] else [])
  }

  lemma ProjectAppend(entries: seq<Entry>, e: Entry, name: string)
    ensures Project(entries + [e], name) == Project(entries, name) + (if e.name == name then [e.value] else [])
  {
    assert (entries + [e])[..|entries|] == entries;
  }

  function Valued(values: seq<string>): seq<Option<string>> {
    seq(|values|, i requires 0 <= i < |values| => Some(values[i]))
  }

  function DropEmpty(m: Values): Values {
    map name | name in m && m[name] != [] :: m[name]
  }

  predicate AllNonEmpty(m: Values) {
    forall name :: name in m ==> m[name] != []
  }

  // ----- The loops -----

  /** The loop that decodes the entries of a message. */
  method Decode(entries: seq<Entry>) returns (m: Values)
    ensures m == Group(entries)
  {
    m := map[];
    for i := 0 to |entries|
      invariant m == Group(entries[..i])
    {
      assert entries[..i + 1][..i] == entries[..i];
      m := Add(m, entries[i].name, Text(entries[i].value));
    }
    assert entries[..|entries|] == entries;
  }

  /** The patch grows by one entry. */
  method Push(out: seq<Entry>, e: Entry) returns (out': seq<Entry>)
    ensures out' == out + [e]
    ensures forall name :: Project(out', name) == if name == e.name then Project(out, name) + [e.value]
      else Project(out, name)
  {
    out' := out + [e];
    forall name
      ensures Project(out', name) == if name == e.name then Project(out, name) + [e.value] else Project(out, name)
    {
      ProjectAppend(out, e, name);
    }
  }

  function DeletionWant(raw: Values, live: Values, name: string): seq<Option<string>> {
    if name in raw && name !in live then [None] else []
  }

  /** The loop over the old names: a name that is gone gets an entry without a value. */
  method Deletions(raw: Values, live: Values) returns (out: seq<Entry>)
    ensures forall name :: Project(out, name) == DeletionWant(raw, live, name)
  {
    out := [];
    var todo := raw.Keys;
    while todo != {}
      invariant todo <= raw.Keys
      invariant forall name :: Project(out, name) == if name in todo then [] else DeletionWant(raw, live, name)
    {
      var n :| n in todo;
      todo := todo - {n};
      if n !in live {
        out := Push(out, Entry(n, None));
      }
    }
  }

  /** What a header patch says of one name: only the first values are compared and sent. */
  function HeaderWant(raw: Values, live: Values, name: string): seq<Option<string>>
    requires AllNonEmpty(raw) && AllNonEmpty(live)
  {
    if name !in live then (if name in raw then [None] else [])
    else if name !in raw || raw[name][0] != live[name][0] then [Some(live[name][0])]
    else []
  }

  method HeaderChanges(raw: Values, live: Values) returns (out: seq<Entry>)
    requires AllNonEmpty(raw) && AllNonEmpty(live)
    ensures forall name :: Project(out, name) == HeaderWant(raw, live, name)
  {
    out := Deletions(raw, live);
    var todo := live.Keys;
    while todo != {}
      invariant todo <= live.Keys
      invariant forall name :: Project(out, name) == if name in todo then [] else HeaderWant(raw, live, name)
    {
      var n :| n in todo;
      todo := todo - {n};
      if n !in raw || raw[n][0] != live[n][0] {
        out := Push(out, Entry(n, Some(live[n][0])));
      }
    }
  }

  /** What an argument patch says of one name: the whole new list, unless it is deeply equal to the old. */
  function ArgsWant(raw: Values, live: Values, name: string): seq<Option<string>> {
    if name !in live then (if name in raw then [None] else [])
    else if name !in raw || raw[name] != live[name] then Valued(live[name])
    else []
  }

  /** The inner loop: one valued entry for each of the values of a name that the patch has not mentioned. */
  method AppendValues(out: seq<Entry>, n: string, values: seq<string>) returns (out': seq<Entry>)
    requires Project(out, n) == []
    ensures forall name :: Project(out', name) == if name == n then Valued(values) else Project(out, name)
  {
    out' := out;
    for i := 0 to |values|
      invariant forall name :: Project(out', name) == if name == n then Valued(values)[..i] else Project(out, name)
    {
      out' := Push(out', Entry(n, Some(values[i])));
      assert Valued(values)[..i + 1] == Valued(values)[..i] + [Some(values[i])];
    }
  }

  /** The body of the outer loop: the whole list of one live name, if it changed. */
  method ArgChange(raw: Values, live: Values, n: string, out: seq<Entry>) returns (out': seq<Entry>)
    requires n in live && Project(out, n) == []
    ensures forall name :: Project(out', name) == if name == n then ArgsWant(raw, live, n) else Project(out, name)
  {
    out' := out;
    if n !in raw || raw[n] != live[n] {
      out' := AppendValues(out, n, live[n]);
    }
  }

  method ArgsChanges(raw: Values, live: Values) returns (out: seq<Entry>)
    ensures forall name :: Project(out, name) == ArgsWant(raw, live, name)
  {
    out := Deletions(raw, live);
    var todo := live.Keys;
    while todo != {}
      invariant todo <= live.Keys
      invariant forall name :: Project(out, name) == if name in todo then [] else ArgsWant(raw, live, name)
    {
      var n :| n in todo;
      out := ArgChange(raw, live, n, out);
      todo := todo - {n};
    }
  }

  function FlatWant(m: Values, name: string): seq<Option<string>> {
    if name in m then Valued(m[name]) else []
  }

  /** The loop that writes a whole multi-valued map, as for response headers. */
  method Flatten(m: Values) returns (out: seq<Entry>)
    ensures forall name :: Project(out, name) == FlatWant(m, name)
  {
    out := [];
    var todo := m.Keys;
    while todo != {}
      invariant todo <= m.Keys
      invariant forall name :: Project(out, name) == if name in todo then [] else FlatWant(m, name)
    {
      var n :| n in todo;
      todo := todo - {n};
      out := AppendValues(out, n, m[n]);
    }
  }

  /** FlatBuffers vectors are built back to front, so the entries are prepended from the last one. */
  method BuildVector(entries: seq<Entry>) returns (vector: seq<Entry>)
    ensures vector == entries
  {
    vector := [];
    var i := |entries| - 1;
    while i >= 0
      invariant -1 <= i < |entries|
      invariant vector == entries[i + 1..]
    {
      vector := [entries[i]] + vector;
      i := i - 1;
    }
  }

  // ----- What a patch means to the gateway -----

  function ApplyHeaders(m: Values, patch: seq<Entry>): Values {
    if patch == [] then m else
      var last := patch[|patch| - 1];
      var before := ApplyHeaders(m, patch[..|patch| - 1]);
      if last.value.None? then before - {last.name} else before[last.name := [last.value.value]]
  }

  /** An argument entry without a value deletes; the first valued entry of a name replaces, later ones append. */
  function ApplyArgs(m: Values, patch: seq<Entry>): Values {
    if patch == [] then m else
      var last := patch[|patch| - 1];
      var earlier := patch[..|patch| - 1];
      var before := ApplyArgs(m, earlier);
      if last.value.None? then before - {last.name}
      else if exists i :: 0 <= i < |earlier| && earlier[i].name == last.name && earlier[i].value.Some?
      then Add(before, last.name, last.value.value)
      else before[last.name := [last.value.value]]
  }

  /** What becomes of a name depends only on the last entry that names it. */
  lemma {:induction false} ApplyHeadersAt(m: Values, patch: seq<Entry>, name: string)
    ensures var p := Project(patch, name);
      if p == [] then (name in ApplyHeaders(m, patch) <==> name in m) &&
        (name in m ==> ApplyHeaders(m, patch)[name] == m[name])
      else if p[|p| - 1].None? then name !in ApplyHeaders(m, patch)
      else name in ApplyHeaders(m, patch) && ApplyHeaders(m, patch)[name] == [p[|p| - 1].value]
  {
    if patch != [] {
      ApplyHeadersAt(m, patch[..|patch| - 1], name);
    }
  }

  lemma {:induction false} ProjectEmptyIff(patch: seq<Entry>, name: string)
    ensures Project(patch, name) == [] <==> forall i :: 0 <= i < |patch| ==> patch[i].name != name
  {
    if patch != [] {
      var init := patch[..|patch| - 1];
      ProjectEmptyIff(init, name);
      assert forall i :: 0 <= i < |init| ==> patch[i] == init[i];
    }
  }

  predicate AllSome(p: seq<Option<string>>) {
    forall i :: 0 <= i < |p| ==> p[i].Some?
  }

  lemma {:induction false} ValuedEntryIff(patch: seq<Entry>, name: string)
    requires AllSome(Project(patch, name))
    ensures Project(patch, name) == [] <==>
            !exists i :: 0 <= i < |patch| && patch[i].name == name && patch[i].value.Some?
  {
    if patch != [] {
      var init, last := patch[..|patch| - 1], patch[|patch| - 1];
      assert forall i :: 0 <= i < |Project(init, name)| ==> Project(patch, name)[i] == Project(init, name)[i];
      ValuedEntryIff(init, name);
      assert forall i :: 0 <= i < |init| ==> patch[i] == init[i];
      if last.name == name {
        var p := Project(patch, name);
        assert p[|p| - 1] == last.value;
      }
    }
  }

  lemma {:induction false} ApplyArgsAt(m: Values, patch: seq<Entry>, name: string, values: seq<string>)
    requires Project(patch, name) == Valued(values)
    ensures if values == []
      then (name in ApplyArgs(m, patch) <==> name in m) && (name in m ==> ApplyArgs(m, patch)[name] == m[name])
      else name in ApplyArgs(m, patch) && ApplyArgs(m, patch)[name] == values
  {
    if patch != [] {
      var init, last := patch[..|patch| - 1], patch[|patch| - 1];
      if last.name == name {
        var n := |values| - 1;
        assert Project(init, name) == Valued(values)[..n] == Valued(values[..n]);
        assert last.value == Valued(values)[n];
        ApplyArgsAt(m, init, name, values[..n]);
        ValuedEntryIff(init, name);
      } else {
        ApplyArgsAt(m, init, name, values);
      }
    }
  }

  lemma {:induction false} ApplyArgsDeletes(m: Values, patch: seq<Entry>, name: string)
    requires Project(patch, name) == [None]
    ensures name !in ApplyArgs(m, patch)
  {
    var init, last := patch[..|patch| - 1], patch[|patch| - 1];
    if last.name != name {
      ApplyArgsDeletes(m, init, name);
    } else {
      assert Project(patch, name)[|Project(patch, name)| - 1] == last.value;
    }
  }

  lemma {:induction false} GroupAt(entries: seq<Entry>, name: string)
    ensures name in Group(entries) <==> Project(entries, name) != []
    ensures name in Group(entries) ==>
      |Group(entries)[name]| == |Project(entries, name)| &&
      forall i :: 0 <= i < |Project(entries, name)| ==> Group(entries)[name][i] == Text(Project(entries, name)[i])
  {
    if entries != [] {
      GroupAt(entries[..|entries| - 1], name);
    }
  }

  lemma GroupedNonEmpty(entries: seq<Entry>)
    ensures AllNonEmpty(Group(entries))
  {
    forall name | name in Group(entries)
      ensures Group(entries)[name] != []
    {
      GroupAt(entries, name);
    }
  }

  // ----- Patch correctness -----

  ghost predicate IsHeaderPatch(raw: Values, live: Values, patch: seq<Entry>)
    requires AllNonEmpty(raw) && AllNonEmpty(live)
  {
    forall name :: Project(patch, name) == HeaderWant(raw, live, name)
  }

  ghost predicate IsArgsPatch(raw: Values, live: Values, patch: seq<Entry>) {
    forall name :: Project(patch, name) == ArgsWant(raw, live, name)
  }

  /** Applying a header patch to the original headers gives every name the first value it has live, and
      only live names; no name is emitted twice. */
  lemma HeaderPatchCorrect(raw: Values, live: Values, patch: seq<Entry>)
    requires AllNonEmpty(raw) && AllNonEmpty(live) && IsHeaderPatch(raw, live, patch)
    ensures var m := ApplyHeaders(raw, patch);
      m.Keys == live.Keys && forall name :: name in live ==> m[name] != [] && m[name][0] == live[name][0]
    ensures forall name :: |Project(patch, name)| <= 1
  {
    var m := ApplyHeaders(raw, patch);
    forall name
      ensures name in m <==> name in live
      ensures name in live ==> m[name] != [] && m[name][0] == live[name][0]
    {
      ApplyHeadersAt(raw, patch, name);
    }
  }

  /** The patched headers equal the live ones, later values included, exactly when every name that keeps
      its first value keeps its whole list and every other live name has a single value. */
  lemma HeaderPatchExactIff(raw: Values, live: Values, patch: seq<Entry>)
    requires AllNonEmpty(raw) && AllNonEmpty(live) && IsHeaderPatch(raw, live, patch)
    ensures ApplyHeaders(raw, patch) == live <==>
      forall name :: name in live ==>
        if name in raw && raw[name][0] == live[name][0] then raw[name] == live[name] else |live[name]| == 1
  {
    var m := ApplyHeaders(raw, patch);
    HeaderPatchCorrect(raw, live, patch);
    forall name | name in live
      ensures m[name] == live[name] <==>
        if name in raw && raw[name][0] == live[name][0] then raw[name] == live[name] else |live[name]| == 1
    {
      ApplyHeadersAt(raw, patch, name);
      assert |live[name]| == 1 ==> live[name] == [live[name][0]];
    }
  }

  /** Applying an argument patch yields the new arguments exactly when no original name was left with an
      empty list; a name without values is the same as no name. */
  lemma ArgsPatchCorrectIff(raw: Values, live: Values, patch: seq<Entry>)
    requires AllNonEmpty(raw) && IsArgsPatch(raw, live, patch)
    ensures ApplyArgs(raw, patch) == DropEmpty(live) <==>
      forall name :: name in raw && name in live ==> live[name] != []
  {
    var m, want := ApplyArgs(raw, patch), DropEmpty(live);
    forall name
      ensures !(name in raw && name in live && live[name] == []) ==>
        (name in m <==> name in want) && (name in want ==> m[name] == want[name])
      ensures name in raw && name in live && live[name] == [] ==> name in m
    {
      if name !in live {
        if name in raw {
          ApplyArgsDeletes(raw, patch, name);
        } else {
          ApplyArgsAt(raw, patch, name, []);
        }
      } else if name !in raw || raw[name] != live[name] {
        ApplyArgsAt(raw, patch, name, live[name]);
      } else {
        ApplyArgsAt(raw, patch, name, []);
      }
    }
    if forall name :: name in raw && name in live ==> live[name] != [] {
      assert m == want;
    }
  }

  /** Names that did not change are not mentioned; without changes the patch is empty. */
  lemma UnchangedEmitNothing(raw: Values, live: Values, patch: seq<Entry>)
    requires IsArgsPatch(raw, live, patch) || (AllNonEmpty(raw) && AllNonEmpty(live) && IsHeaderPatch(raw, live, patch))
    ensures forall i :: 0 <= i < |patch| ==>
      !(patch[i].name in raw && patch[i].name in live && raw[patch[i].name] == live[patch[i].name])
    ensures raw == live ==> patch == []
  {
    forall i | 0 <= i < |patch|
      ensures patch[i].name in raw || patch[i].name in live
      ensures !(patch[i].name in raw && patch[i].name in live && raw[patch[i].name] == live[patch[i].name])
    {
      ProjectEmptyIff(patch, patch[i].name);
    }
    if raw == live && patch != [] {
      assert patch[0].name in raw;
    }
  }

  /** A multi-valued map that is flattened in any order of its names, put into a vector and decoded again
      comes back with every list in its order. */
  lemma FlattenRegroup(m: Values, vector: seq<Entry>)
    requires forall name :: Project(vector, name) == FlatWant(m, name)
    ensures Group(vector) == DropEmpty(m)
  {
    forall name
      ensures name in Group(vector) <==> name in DropEmpty(m)
      ensures name in DropEmpty(m) ==> Group(vector)[name] == m[name]
    {
      GroupAt(vector, name);
    }
  }
}
