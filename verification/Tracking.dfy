/** What requests and responses share: a map decoded lazily beside a snapshot of it, and the buffer that
    ExtraInfo headers are written into. */
module Tracking {
  import opened Wrappers
  import opened Wire
  import opened Patch

  /** `live` is None until the map is first looked at; `raw` is the snapshot taken then, and until then
      whatever an earlier use of the object left there. */
  datatype Tracked = Tracked(live: Option<Values>, raw: Values)

  const UNREAD := Tracked(None, map[])

  function Open(t: Tracked, entries: seq<Entry>): (r: Tracked)
    ensures r.live.Some?
  {
    if t.live.Some? then t else Tracked(Some(Group(entries)), Group(entries))
  }

  /** A change to the live map; the snapshot stays. */
  datatype Edit = Append(value: string) | Set(value: string) | Del | Keep

  function Edited(m: Values, name: string, e: Edit): Values {
    match e
    case Append(value) => Add(m, name, value)
    case Set(value) => m[name := [value]]
    case Del => m - {name}
    case Keep => m
  }

  function OpenAndEdit(t: Tracked, entries: seq<Entry>, name: string, e: Edit): (r: Tracked)
    ensures r.live.Some?
  {
    var t2 := Open(t, entries);
    Tracked(Some(Edited(t2.live.value, name, e)), t2.raw)
  }

  /** What an edit does to the list under its name, and that it does nothing to other names. */
  lemma EditMeans(m: Values, name: string, e: Edit)
    ensures var m' := Edited(m, name, e);
      && (forall other :: other != name ==>
            (other in m' <==> other in m) && (other in m ==> m'[other] == m[other]))
      && (name in m' <==> e.Append? || e.Set? || (e.Keep? && name in m))
      && (e.Append? ==> m'[name] == (if name in m then m[name] else []) + [e.value])
      && (e.Set? ==> m'[name] == [e.value])
      && (e.Keep? && name in m ==> m'[name] == m[name])
  {}

  function First(m: Values, name: string): (text: string)
    ensures name !in m ==> text == ""
  {
    if name in m && m[name] != [] then m[name][0] else ""
  }

  /** A header patch gives every header the first value it has live. */
  lemma FirstsReproduced(raw: Values, live: Values, patch: seq<Entry>)
    requires AllNonEmpty(raw) && AllNonEmpty(live) && IsHeaderPatch(raw, live, patch)
    ensures var m := ApplyHeaders(raw, patch);
      m.Keys == live.Keys && forall name :: First(m, name) == First(live, name)
  {
    HeaderPatchCorrect(raw, live, patch);
  }

  /** Once looked at, the snapshot is the decoded message and no live name is left without a value. */
  predicate Sound(t: Tracked, entries: seq<Entry>) {
    t.live.Some? ==> t.raw == Group(entries) && AllNonEmpty(t.raw) && AllNonEmpty(t.live.value)
  }

  lemma OpenAndEditSound(t: Tracked, entries: seq<Entry>, name: string, e: Edit)
    requires Sound(t, entries)
    ensures Sound(Open(t, entries), entries) && Sound(OpenAndEdit(t, entries, name, e), entries)
  {
    GroupedNonEmpty(entries);
  }

  /** Equal as far as a user can tell: a snapshot counts only once the map has been looked at. */
  predicate Alike(a: Tracked, b: Tracked) {
    a.live == b.live && (a.live.Some? ==> a.raw == b.raw)
  }

  // ----- Asking the gateway -----

  /** One ask: the question, the answer if one comes, and what the exchange leaves in the header buffer. */
  datatype Ask = Ask(question: bytes, answer: Option<bytes>, scratch: bytes)

  predicate AskFits(ask: Ask) {
    |ask.scratch| == HEADER_LEN
  }

  /** The header buffer is made on first use and then kept, with whatever it holds, across reuses. */
  predicate BufferFits(buffer: bytes) {
    |buffer| == 0 || |buffer| == HEADER_LEN
  }

  /** The bytes sent: the length is put over the first four bytes of the buffer, the type over the first. */
  function QuestionSent(buffer: bytes, question: bytes): bytes
    requires BufferFits(buffer)
  {
    var header := if buffer == [] then [0, 0, 0, 0] else buffer;
    (PutUint32(|question|) + header[HEADER_LEN..])[0 := RPC_EXTRA_INFO] + question
  }

  /** Nothing of the buffer's old contents is sent. */
  lemma QuestionIsAFrame(buffer: bytes, question: bytes)
    requires BufferFits(buffer)
    ensures QuestionSent(buffer, question) == Encode(Frame(RPC_EXTRA_INFO, question))
  {
    var header := if buffer == [] then [0, 0, 0, 0] else buffer;
    assert PutUint32(|question|) + header[HEADER_LEN..] == PutUint32(|question|);
  }
}
