/** The bytes of one evidence file: whole-line appends over short writes, failures and rollback
    (`runtime/state.py`). Appends of one process hold the file's lock, so a call is one step. */
module EvidenceFile {
  import opened Common
  import opened EvidenceChain

  /** How records become text and text becomes lines. `isBreak` is what `splitlines` breaks at,
      `isSpace` what `strip` removes, `isPad` the white space JSON allows before a document. */
  datatype Codec<!B> = Codec(enc: Record<B> -> string, dec: string -> Line<B>,
                             isBreak: char -> bool, isSpace: char -> bool, isPad: char -> bool)

  predicate Padding<B>(c: Codec<B>, s: string)
  {
    forall i :: 0 <= i < |s| ==> c.isPad(s[i])
  }

  predicate Blank<B>(c: Codec<B>, s: string)
  {
    forall i :: 0 <= i < |s| ==> c.isSpace(s[i])
  }

  ghost predicate NoBreak<B>(c: Codec<B>, s: string)
  {
    forall i :: 0 <= i < |s| ==> !c.isBreak(s[i])
  }

  /** JSON text of a mapping: one line, not blank, read back as the same record; and nothing but
      padding can stand before it on its line and leave a JSON document. */
  ghost predicate Lawful<B(!new)>(c: Codec<B>)
  {
    && c.isBreak('\n')
    && (forall r :: NoBreak(c, c.enc(r)) && !Blank(c, c.enc(r)) && c.dec(c.enc(r)) == Dict(r))
    && (forall x :: c.isPad(x) ==> c.isSpace(x))
    && (forall t, r :: c.dec(t + c.enc(r)) == if Padding(c, t) then Dict(r) else Junk)
  }

  /** The non-blank lines of `cur + text`, where `cur` is the open line read so far. */
  function RawLines<B>(c: Codec<B>, text: string, cur: string): seq<string>
    decreases |text|
  {
    var open := if Blank(c, cur) then [] else [cur];
    if text == [] then open
    else if c.isBreak(text[0]) then open + RawLines(c, text[1..], [])
    else RawLines(c, text[1..], cur + [text[0]])
  }

  function Decoded<B>(c: Codec<B>, raw: seq<string>): (lines: seq<Line<B>>)
    ensures |lines| == |raw|
  {
    seq(|raw|, i requires 0 <= i < |raw| => c.dec(raw[i]))
  }

  function Lines<B>(c: Codec<B>, text: string): seq<Line<B>>
  {
    Decoded(c, RawLines(c, text, []))
  }

  /** The open last line: what stands after the last line break. */
  function Tail<B>(c: Codec<B>, text: string, cur: string): string
    decreases |text|
  {
    if text == [] then cur
    else if c.isBreak(text[0]) then Tail(c, text[1..], [])
    else Tail(c, text[1..], cur + [text[0]])
  }

  lemma {:induction false} RawLinesOfAppend<B>(c: Codec<B>, text: string, cur: string, more: string)
    ensures RawLines(c, text + more, cur) ==
            ClosedLines(c, text, cur) + RawLines(c, more, Tail(c, text, cur))
    decreases |text|
  {
    if text == [] {
      assert text + more == more;
    } else {
      assert (text + more)[1..] == text[1..] + more;
      if c.isBreak(text[0]) {
        RawLinesOfAppend(c, text[1..], [], more);
      } else {
        RawLinesOfAppend(c, text[1..], cur + [text[0]], more);
      }
    }
  }

  /** The non-blank lines before the open one. */
  function ClosedLines<B>(c: Codec<B>, text: string, cur: string): seq<string>
    decreases |text|
  {
    if text == [] then []
    else if c.isBreak(text[0]) then (if Blank(c, cur) then [] else [cur]) + ClosedLines(c, text[1..], [])
    else ClosedLines(c, text[1..], cur + [text[0]])
  }

  lemma {:induction false} OneLine<B>(c: Codec<B>, s: string, cur: string)
    requires NoBreak(c, s) && c.isBreak('\n')
    ensures RawLines(c, s + "\n", cur) == if Blank(c, cur + s) then [] else [cur + s]
    ensures Tail(c, s + "\n", cur) == []
    decreases |s|
  {
    if s == [] {
      assert cur + s == cur && s + "\n" == "\n";
      assert "\n"[1..] == [];
      assert Blank(c, []);
      assert RawLines(c, [], []) == [];
    } else {
      assert (s + "\n")[1..] == s[1..] + "\n";
      assert (cur + [s[0]]) + s[1..] == cur + s;
      OneLine(c, s[1..], cur + [s[0]]);
    }
  }

  lemma {:induction false} TailOfAppend<B>(c: Codec<B>, text: string, cur: string, more: string)
    ensures Tail(c, text + more, cur) == Tail(c, more, Tail(c, text, cur))
    decreases |text|
  {
    if text == [] {
      assert text + more == more;
    } else {
      assert (text + more)[1..] == text[1..] + more;
      TailOfAppend(c, text[1..], if c.isBreak(text[0]) then [] else cur + [text[0]], more);
    }
  }

  lemma NotBlankAfter<B>(c: Codec<B>, front: string, s: string)
    requires !Blank(c, s)
    ensures !Blank(c, front + s)
  {
    var i :| 0 <= i < |s| && !c.isSpace(s[i]);
    assert (front + s)[|front| + i] == s[i];
  }

  lemma LastOpen<B>(c: Codec<B>, cur: string)
    ensures RawLines(c, [], cur) == if Blank(c, cur) then [] else [cur]
    ensures Tail(c, [], cur) == cur
  {
  }

  /** Writing one encoded line after `text`: on a terminated file, or one that ends in padding, it
      is a new last line; on a torn one it merges with the torn line and neither can be read. */
  lemma AppendedLine<B(!new)>(c: Codec<B>, text: string, r: Record<B>)
    requires Lawful(c)
    ensures var after := text + c.enc(r) + "\n";
            && Tail(c, after, []) == []
            && (Padding(c, Tail(c, text, [])) ==> Lines(c, after) == Lines(c, text) + [Dict(r)])
            && (!Padding(c, Tail(c, text, [])) ==> Junk in Lines(c, after))
  {
    var data := c.enc(r) + "\n";
    var after := text + c.enc(r) + "\n";
    var tail := Tail(c, text, []);
    assert after == text + data;
    RawLinesOfAppend(c, text, [], data);
    RawLinesOfAppend(c, text, [], []);
    assert text + [] == text;
    OneLine(c, c.enc(r), tail);
    TailOfAppend(c, text, [], data);
    var joined := tail + c.enc(r);
    NotBlankAfter(c, tail, c.enc(r));
    hide RawLines;
    hide Tail;
    hide ClosedLines;
    LastOpen(c, tail);
    assert RawLines(c, after, []) == ClosedLines(c, text, []) + [joined];
    if Padding(c, tail) {
      assert Blank(c, tail);
      assert RawLines(c, text, []) == ClosedLines(c, text, []);
      assert Lines(c, after) == Lines(c, text) + [Dict(r)];
    } else {
      var raw := RawLines(c, after, []);
      assert Lines(c, after)[|raw| - 1] == Junk;
    }
  }

  // ----- one append, against a device that may write short, fail, or refuse to roll back

  /** What one `os.write` does: writes some of the bytes, or raises. */
  datatype Write = Wrote(n: nat) | Failed

  /** The outcomes the device gives an append: one per write (none left means the write takes
      everything), then the fsync and, if it comes to that, the truncation. */
  datatype Device = Device(writes: seq<Write>, fsyncOk: bool, truncateOk: bool)

  /** A write that returns has written at least one byte of a non-empty buffer. */
  ghost predicate Positive(writes: seq<Write>)
  {
    forall i :: 0 <= i < |writes| ==> writes[i] == Failed || writes[i].n > 0
  }

  /** How many of `size` bytes reach the file, and whether the loop ends without an error. */
  function Progress(size: nat, writes: seq<Write>): (r: (nat, bool))
    ensures r.0 <= size && (r.1 ==> r.0 == size)
    decreases |writes|
  {
    if size == 0 then (0, true)
    else if writes == [] then (size, true)
    else if writes[0] == Failed then (0, false)
    else
      var n := Min(writes[0].n, size);
      var rest := Progress(size - n, writes[1..]);
      (n + rest.0, rest.1)
  }

  /** The text one `append_evidence` call leaves, and whether it returned. */
  function AfterAppend<B>(c: Codec<B>, sc: Scheme<B>, text: string, body: B, device: Device): (string, bool)
  {
    match NextRecord(sc, Lines(c, text), body)
    case None => (text, false)
    case Some(r) =>
      var data := c.enc(r) + "\n";
      var (n, wrote) := Progress(|data|, device.writes);
      if wrote && device.fsyncOk then (text + data, true)
      else if device.truncateOk then (text, false)
      else (text + data[..n], false)
  }

  class EvidenceFile<!B(!new)> {
    const codec: Codec<B>
    const scheme: Scheme<B>
    var present: bool
    var text: string

    constructor (codec: Codec<B>, scheme: Scheme<B>)
      ensures this.codec == codec && this.scheme == scheme && !present && text == []
    {
      this.codec, this.scheme := codec, scheme;
      present, text := false, [];
    }

    ghost function Records(): seq<Line<B>>
      reads this
    {
      Lines(codec, text)
    }

    /** `_write_all`: exactly the given bytes in order, whatever sizes the writes come in. */
    method WriteAll(data: string, device: Device) returns (ok: bool)
      requires Positive(device.writes)
      modifies this`text
      ensures ok == Progress(|data|, device.writes).1
      ensures text == old(text) + data[..Progress(|data|, device.writes).0]
    {
      var view := data;
      var k := 0;
      ghost var was := text;
      while view != []
        invariant 0 <= k <= |device.writes|
        invariant |view| <= |data| && view == data[|data| - |view|..]
        invariant text == was + data[..|data| - |view|]
        invariant Progress(|data|, device.writes).0 ==
                  |data| - |view| + Progress(|view|, device.writes[k..]).0
        invariant Progress(|data|, device.writes).1 == Progress(|view|, device.writes[k..]).1
        decreases |view|
      {
        var written := |view|;
        if k < |device.writes| {
          if device.writes[k] == Failed {
            assert device.writes[k..][0] == Failed;
            return false;
          }
          written := Min(device.writes[k].n, |view|);
          assert device.writes[k..][0] == device.writes[k] && device.writes[k..][1..] == device.writes[k + 1..];
          k := k + 1;
        }
        text := text + view[..written];
        view := view[written..];
      }
      assert data[..|data|] == data;
      return true;
    }

    /** `append_evidence`. False is an exception: reading the last line raised before anything was
        written, or the write or fsync failed and the file was rolled back if truncation worked. */
    method AppendEvidence(event: B, device: Device) returns (ok: bool)
      requires Positive(device.writes)
      modifies this
      ensures (text, ok) == AfterAppend(codec, scheme, old(text), event, device)
      ensures present == (old(present) || NextRecord(scheme, old(Records()), event).Some?)
    {
      var r := NextRecord(scheme, Lines(codec, text), event);
      if r.None? {
        return false;
      }
      var data := codec.enc(r.value) + "\n";
      present := true;
      var offset := |text|;
      ok := WriteAll(data, device);
      assert ok ==> data[..Progress(|data|, device.writes).0] == data;
      ok := ok && device.fsyncOk;
      if !ok && device.truncateOk {
        text := text[..offset];
      }
    }
  }

  /** The text of a file after one successful append verifies exactly when it verified before and
      ended in a complete line, padding aside: corruption is never laundered into a good log. */
  lemma SuccessfulAppendVerifiesIff<B(!new)>(c: Codec<B>, sc: Scheme<B>, text: string, body: B)
    requires Lawful(c) && EvidenceChain.Lawful(sc)
    requires NextRecord(sc, Lines(c, text), body).Some?
    ensures var after := text + c.enc(NextRecord(sc, Lines(c, text), body).value) + "\n";
            && Tail(c, after, []) == []
            && (Intact(sc, Lines(c, after)) <==> Intact(sc, Lines(c, text)) && Padding(c, Tail(c, text, [])))
  {
    var r := NextRecord(sc, Lines(c, text), body).value;
    AppendedLine(c, text, r);
    if Padding(c, Tail(c, text, [])) {
      AppendVerifiesIffLogDid(sc, Lines(c, text), body);
    } else {
      var lines := Lines(c, text + c.enc(r) + "\n");
      var i :| 0 <= i < |lines| && lines[i] == Junk;
      assert !LinkIntact(sc, lines, i);
    }
  }

  // ----- whole histories of one file

  datatype Attempt<B> = Attempt(body: B, device: Device)

  /** The file after a history of append calls on a new file. */
  function TextAfter<B>(c: Codec<B>, sc: Scheme<B>, calls: seq<Attempt<B>>): string
  {
    if calls == [] then []
    else
      var call := calls[|calls| - 1];
      AfterAppend(c, sc, TextAfter(c, sc, calls[..|calls| - 1]), call.body, call.device).0
  }

  /** The events of the calls that returned, in order. */
  function Returned<B>(c: Codec<B>, sc: Scheme<B>, calls: seq<Attempt<B>>): seq<B>
  {
    if calls == [] then []
    else
      var call := calls[|calls| - 1];
      var before := calls[..|calls| - 1];
      Returned(c, sc, before) +
      if AfterAppend(c, sc, TextAfter(c, sc, before), call.body, call.device).1 then [call.body] else []
  }

  lemma AppendStep<B(!new)>(c: Codec<B>, sc: Scheme<B>, text: string, kept: seq<B>, call: Attempt<B>)
    requires Lawful(c) && Intact(sc, Log(sc, kept)) && call.device.truncateOk
    requires Tail(c, text, []) == [] && Lines(c, text) == Log(sc, kept)
    ensures var (after, ok) := AfterAppend(c, sc, text, call.body, call.device);
            && Tail(c, after, []) == []
            && Lines(c, after) == Log(sc, kept + if ok then [call.body] else [])
  {
    LogStep(sc, kept, call.body);
    var r := NextRecord(sc, Lines(c, text), call.body).value;
    AppendedLine(c, text, r);
    assert text + (c.enc(r) + "\n") == text + c.enc(r) + "\n";
    assert kept + [] == kept;
  }

  /** Short writes and failures, as long as each failed call's truncation works, leave exactly the
      verifying log of the events whose append returned. */
  lemma {:induction false} HistoryIsLogOfReturned<B(!new)>(c: Codec<B>, sc: Scheme<B>, calls: seq<Attempt<B>>)
    requires Lawful(c) && forall t :: sc.str(Text(t)) == t
    requires forall i :: 0 <= i < |calls| ==> calls[i].device.truncateOk
    ensures Tail(c, TextAfter(c, sc, calls), []) == []
    ensures Lines(c, TextAfter(c, sc, calls)) == Log(sc, Returned(c, sc, calls))
    ensures Intact(sc, Lines(c, TextAfter(c, sc, calls)))
  {
    LogIsIntact(sc, Returned(c, sc, calls));
    if calls == [] {
      assert RawLines(c, [], []) == [];
    } else {
      var k := |calls| - 1;
      HistoryIsLogOfReturned(c, sc, calls[..k]);
      AppendStep(c, sc, TextAfter(c, sc, calls[..k]), Returned(c, sc, calls[..k]), calls[k]);
    }
  }

  // ----- one append, told by what the device did

  /** The first `k` writes all returned. */
  ghost predicate Returning(writes: seq<Write>, k: nat)
    requires k <= |writes|
  {
    forall i :: 0 <= i < k ==> writes[i].Wrote?
  }

  ghost function WrittenBy(writes: seq<Write>, k: nat): nat
    requires k <= |writes| && Returning(writes, k)
  {
    if k == 0 then 0 else WrittenBy(writes, k - 1) + writes[k - 1].n
  }

  /** A write fails while bytes are missing. */
  ghost predicate FailsAt(size: nat, writes: seq<Write>, k: nat)
  {
    k < |writes| && Returning(writes, k) && writes[k] == Failed && WrittenBy(writes, k) < size
  }

  ghost predicate AllOut(size: nat, writes: seq<Write>)
  {
    forall k :: !FailsAt(size, writes, k)
  }

  lemma {:induction false} WrittenFromFirst(writes: seq<Write>, k: nat)
    requires 0 < k <= |writes| && Returning(writes, k)
    ensures Returning(writes[1..], k - 1) && WrittenBy(writes, k) == writes[0].n + WrittenBy(writes[1..], k - 1)
  {
    if k > 1 {
      WrittenFromFirst(writes, k - 1);
      assert writes[1..][k - 2] == writes[k - 1];
    }
  }

  lemma FailsLater(size: nat, writes: seq<Write>, k: nat)
    requires size > 0 && writes != [] && writes[0].Wrote? && k > 0
    ensures FailsAt(size, writes, k) <==> writes[0].n < size && FailsAt(size - writes[0].n, writes[1..], k - 1)
  {
    var rest := writes[1..];
    assert forall i :: 0 <= i < |rest| ==> rest[i] == writes[i + 1];
    if k < |writes| {
      assert Returning(writes, k) <==> Returning(rest, k - 1) by {
        if Returning(rest, k - 1) {
          forall i | 0 <= i < k
            ensures writes[i].Wrote?
          {
            assert i == 0 || rest[i - 1] == writes[i];
          }
        }
      }
      if Returning(writes, k) {
        WrittenFromFirst(writes, k);
      }
    }
  }

  /** The write loop ends in an error exactly when some write fails before all bytes are out, and then what
      the writes before it wrote is in the file; otherwise everything is. */
  lemma {:induction false} ProgressTells(size: nat, writes: seq<Write>)
    ensures Progress(size, writes).1 <==> AllOut(size, writes)
    ensures forall k :: FailsAt(size, writes, k) ==> Progress(size, writes).0 == WrittenBy(writes, k)
    ensures Progress(size, writes).1 ==> Progress(size, writes).0 == size
    decreases |writes|
  {
    if size > 0 && writes != [] {
      if writes[0].Failed? {
        assert FailsAt(size, writes, 0);
        assert forall k :: FailsAt(size, writes, k) ==> k == 0;
      } else {
        var rest := writes[1..];
        var left := size - Min(writes[0].n, size);
        ProgressTells(left, rest);
        assert !FailsAt(size, writes, 0);
        forall k: nat | k > 0
          ensures FailsAt(size, writes, k) <==> FailsAt(left, rest, k - 1)
          ensures FailsAt(size, writes, k) ==> WrittenBy(writes, k) == writes[0].n + WrittenBy(rest, k - 1)
        {
          FailsLater(size, writes, k);
          if FailsAt(size, writes, k) {
            WrittenFromFirst(writes, k);
          }
        }
        if k: nat :| FailsAt(left, rest, k) {
          assert FailsAt(size, writes, k + 1);
        }
      }
    }
  }

  /** One append returns exactly when the file's records could be read, no write failed before the whole line
      was out, and the fsync worked: then the file is the old text and that line. Otherwise the file is as it
      was, or, where the truncation failed too, the old text and the part of the line that was written. */
  lemma AppendTells<B(!new)>(c: Codec<B>, sc: Scheme<B>, text: string, body: B, device: Device)
    ensures var (after, ok) := AfterAppend(c, sc, text, body, device);
            var next := NextRecord(sc, Lines(c, text), body);
            && (ok <==> next.Some? && device.fsyncOk && AllOut(|c.enc(next.value)| + 1, device.writes))
            && (ok ==> after == text + c.enc(next.value) + "\n")
            && (!ok && (next.None? || device.truncateOk) ==> after == text)
            && (!ok && next.Some? && !device.truncateOk ==>
                  && (forall k :: FailsAt(|c.enc(next.value)| + 1, device.writes, k) ==>
                        after == text + (c.enc(next.value) + "\n")[..WrittenBy(device.writes, k)])
                  && (AllOut(|c.enc(next.value)| + 1, device.writes) ==>
                        after == text + c.enc(next.value) + "\n"))
  {
    var next := NextRecord(sc, Lines(c, text), body);
    if next.Some? {
      var data := c.enc(next.value) + "\n";
      hide Lines;
      hide NextRecord;
      ProgressTells(|data|, device.writes);
      assert text + data == text + c.enc(next.value) + "\n";
      assert data[..|data|] == data;
    }
  }
}
