/** The one-byte encodings that open an XCMP page and spell a channel signal. */
module XcmpFormat {
  import opened Common

  datatype Format = ConcatenatedVersionedXcm | ConcatenatedEncodedBlob | Signals

  function FormatByte(f: Format): byte {
    match f
    case ConcatenatedVersionedXcm => 0
    case ConcatenatedEncodedBlob => 1
    case Signals => 2
  }

  /** Reads the leading format byte; unknown bytes and the empty page do not decode. */
  function DecodeFormat(s: Bytes): Option<Format> {
    if s == [] then None
    else if s[0] == 0 then Some(ConcatenatedVersionedXcm)
    else if s[0] == 1 then Some(ConcatenatedEncodedBlob)
    else if s[0] == 2 then Some(Signals)
    else None
  }

  /** A page is recognised by its first byte alone: 0, 1 and 2 are the three formats and nothing else decodes. */
  lemma FormatIsFirstByte(f: Format, s: Bytes)
    ensures DecodeFormat(s) == Some(f) <==> s != [] && s[0] == FormatByte(f)
    ensures DecodeFormat(s).None? <==> s == [] || s[0] > 2
  {
  }

  datatype Signal = Suspend | Resume

  /** A signal together with the chain at the other end. */
  datatype Note = Note(peer: ParaId, signal: Signal)

  function SignalByte(sig: Signal): byte { if sig.Suspend? then 0 else 1 }

  function EncodeSignals(sigs: seq<Signal>): (r: Bytes)
    ensures |r| == |sigs|
    ensures forall i :: 0 <= i < |r| ==> r[i] == SignalByte(sigs[i])
  {
    if sigs == [] then [] else [SignalByte(sigs[0])] + EncodeSignals(sigs[1..])
  }

  /** Decodes signal bytes one by one and stops at the first byte that is no signal. */
  function DecodeSignals(s: Bytes): seq<Signal> {
    if s == [] || s[0] > 1 then []
    else [if s[0] == 0 then Suspend else Resume] + DecodeSignals(s[1..])
  }

  lemma {:induction false} SignalsRoundTrip(sigs: seq<Signal>)
    ensures DecodeSignals(EncodeSignals(sigs)) == sigs
  {
    if sigs != [] {
      SignalsRoundTrip(sigs[1..]);
      assert EncodeSignals(sigs)[1..] == EncodeSignals(sigs[1..]);
    }
  }

  /** Decoding stops at the first byte that is no signal, whatever follows. */
  lemma {:induction false} DecodingStops(sigs: seq<Signal>, bad: byte, rest: Bytes)
    requires bad > 1
    ensures DecodeSignals(EncodeSignals(sigs) + [bad] + rest) == sigs
  {
    var all := EncodeSignals(sigs) + [bad] + rest;
    if sigs != [] {
      DecodingStops(sigs[1..], bad, rest);
      assert all[0] == SignalByte(sigs[0]);
      assert all[1..] == EncodeSignals(sigs[1..]) + [bad] + rest;
    } else {
      assert all[0] == bad;
    }
  }

  lemma EncodeSignalsAppend(a: seq<Signal>, b: seq<Signal>)
    ensures EncodeSignals(a + b) == EncodeSignals(a) + EncodeSignals(b)
  {
  }

  /** Suspend, Resume, Suspend, Resume, ... */
  ghost predicate Alternates(sigs: seq<Signal>) {
    forall i :: 0 <= i < |sigs| ==> sigs[i] == if i % 2 == 0 then Suspend else Resume
  }

  lemma AlternatesSnoc(sigs: seq<Signal>, sig: Signal)
    ensures Alternates(sigs + [sig]) <==> Alternates(sigs) && sig == if |sigs| % 2 == 0 then Suspend else Resume
  {
    var s' := sigs + [sig];
    if Alternates(s') {
      forall i | 0 <= i < |sigs| ensures sigs[i] == if i % 2 == 0 then Suspend else Resume { assert s'[i] == sigs[i]; }
      assert s'[|sigs|] == sig;
    }
  }

  // ---- the signals exchanged with one peer ----

  function IsWith(r: ParaId): Note -> bool { (n: Note) => n.peer == r }

  function Kinds(notes: seq<Note>): (k: seq<Signal>)
    ensures |k| == |notes| && forall i :: 0 <= i < |k| ==> k[i] == notes[i].signal
  {
    seq(|notes|, i requires 0 <= i < |notes| => notes[i].signal)
  }

  function SignalsWith(notes: seq<Note>, r: ParaId): seq<Signal> { Kinds(Filter(notes, IsWith(r))) }

  lemma SignalsWithSnoc(notes: seq<Note>, n: Note, r: ParaId)
    ensures SignalsWith(notes + [n], r) == if n.peer == r then SignalsWith(notes, r) + [n.signal] else SignalsWith(notes, r)
  {
    FilterAppend(notes, [n], IsWith(r));
    assert [n][1..] == [];
    if n.peer == r {
      assert Filter([n], IsWith(r)) == [n];
    } else {
      assert Filter([n], IsWith(r)) == [];
    }
  }
}
