/** The hash-chained evidence log of `runtime/state.py`, at the level of parsed lines.

    A record is a JSON mapping: the event's own content (`body`) and the three reserved
    chain keys, each of which a corrupted file may lack or give another JSON type. */
module EvidenceChain {
  import opened Common

  /** The value of a reserved chain key; `Float` is a JSON number that is not an integer, by its
      text. `Other` is a value `int()` refuses. */
  datatype Field = Absent | Int(n: int) | Bool(b: bool) | Float(text: string) | Text(s: string) | Other

  datatype Record<B> = Record(body: B, seqField: Field, prevField: Field, hashField: Field)

  /** `Junk` is a non-blank line that is not JSON or not a mapping. */
  datatype Line<B> = Junk | Dict(record: Record<B>)

  /** `hash` stands for SHA-256 over the canonical JSON of a record without its own hash;
      `parse` for `int()` of a string; `truncate` for `int()` of a float, which refuses infinities;
      `str` for `str()` of a field. */
  datatype Scheme<!B> = Scheme(hash: (B, Field, Field) -> string,
                               parse: string -> Option<int>,
                               truncate: string -> Option<int>,
                               str: Field -> string)

  ghost predicate Lawful<B(!new)>(sc: Scheme<B>)
  {
    && (forall b, s, p, b', s', p' ::
          sc.hash(b, s, p) == sc.hash(b', s', p') ==> b == b' && s == s' && p == p')
    && (forall t :: sc.str(Text(t)) == t)
  }

  /** `int(record.get("_evidence_seq", -1))`; None is a raised error. */
  function AsInt<B>(sc: Scheme<B>, f: Field): Option<int>
  {
    match f
    case Absent => Some(-1)
    case Int(n) => Some(n)
    case Bool(b) => Some(if b then 1 else 0)
    case Float(text) => sc.truncate(text)
    case Text(s) => sc.parse(s)
    case Other => None
  }

  function HashOf<B>(sc: Scheme<B>, r: Record<B>): string
  {
    sc.hash(r.body, r.seqField, r.prevField)
  }

  /** What the chain demands of the line at index `i`. */
  ghost predicate LinkIntact<B>(sc: Scheme<B>, lines: seq<Line<B>>, i: nat)
    requires i < |lines|
  {
    && lines[i].Dict?
    && var r := lines[i].record;
    && AsInt(sc, r.seqField) == Some(i)
    && r.hashField == Text(HashOf(sc, r))
    && sc.str(r.prevField) ==
       if i == 0 then "" else if lines[i - 1].Dict? then sc.str(lines[i - 1].record.hashField) else ""
  }

  ghost predicate Intact<B>(sc: Scheme<B>, lines: seq<Line<B>>)
  {
    forall i :: 0 <= i < |lines| ==> LinkIntact(sc, lines, i)
  }

  /** `verify_evidence_chain`: one pass carrying the previous hash and the expected sequence. */
  method VerifyEvidenceChain<B>(sc: Scheme<B>, lines: seq<Line<B>>) returns (ok: bool)
    requires forall t :: sc.str(Text(t)) == t
    ensures ok <==> Intact(sc, lines)
  {
    var prevHash := "";
    var expectedSeq := 0;
    for k := 0 to |lines|
      invariant expectedSeq == k
      invariant forall i :: 0 <= i < k ==> LinkIntact(sc, lines, i)
      invariant k > 0 ==> lines[k - 1].Dict?
      invariant prevHash == if k == 0 then "" else sc.str(lines[k - 1].record.hashField)
    {
      if lines[k].Junk? {
        assert !LinkIntact(sc, lines, k);
        return false;
      }
      var r := lines[k].record;
      if AsInt(sc, r.seqField) != Some(expectedSeq) {
        assert !LinkIntact(sc, lines, k);
        return false;
      }
      if sc.str(r.prevField) != prevHash {
        assert k > 0 ==> LinkIntact(sc, lines, k - 1);
        assert !LinkIntact(sc, lines, k);
        return false;
      }
      if r.hashField != Text(HashOf(sc, r)) {
        assert !LinkIntact(sc, lines, k);
        return false;
      }
      assert LinkIntact(sc, lines, k);
      prevHash := r.hashField.s;
      expectedSeq := expectedSeq + 1;
    }
    return true;
  }

  datatype Unreadable = Unreadable

  /** `evidence_head_hash`: the last record's hash; no hash for an empty log or an empty string. */
  function HeadHash<B>(sc: Scheme<B>, lines: seq<Line<B>>): Result<Option<string>, Unreadable>
  {
    if lines == [] then Ok(None)
    else if lines[|lines| - 1].Junk? then Err(Unreadable)
    else
      var f := lines[|lines| - 1].record.hashField;
      var h := if f.Absent? then "None" else sc.str(f);
      Ok(if h == "" then None else Some(h))
  }

  /** The record `append_evidence` builds for `body`; None where reading the last line raises. */
  function NextRecord<B>(sc: Scheme<B>, lines: seq<Line<B>>, body: B): Option<Record<B>>
  {
    if lines == [] then Some(Sealed(sc, body, 0, ""))
    else if lines[|lines| - 1].Junk? then None
    else
      var last := lines[|lines| - 1].record;
      match AsInt(sc, last.seqField)
      case None => None
      case Some(n) => Some(Sealed(sc, body, n + 1, sc.str(last.hashField)))
  }

  function Sealed<B>(sc: Scheme<B>, body: B, seqNo: int, prev: string): Record<B>
  {
    Record(body, Int(seqNo), Text(prev), Text(sc.hash(body, Int(seqNo), Text(prev))))
  }

  /** The sequence number a last record gives its successor: one more than a number, a truth value counting
      as 0 or 1, a float cut and a text read as a number; 0 after none; and otherwise no record follows. */
  ghost predicate Follows<B>(sc: Scheme<B>, last: Field, n: int)
  {
    || (last.Absent? && n == 0)
    || (last.Int? && n == last.n + 1)
    || (last == Bool(false) && n == 1)
    || (last == Bool(true) && n == 2)
    || (last.Float? && sc.truncate(last.text) == Some(n - 1))
    || (last.Text? && sc.parse(last.s) == Some(n - 1))
  }

  /** What an append writes: the event itself under the next number, tied to the last line's hash and sealed
      with its own; nothing exactly when the last line is no record or its number cannot be read. */
  lemma NextRecordTells<B>(sc: Scheme<B>, lines: seq<Line<B>>, body: B)
    requires lines != []
    ensures var last := lines[|lines| - 1];
            && (NextRecord(sc, lines, body).None? <==> last.Junk? || forall n :: !Follows(sc, last.record.seqField, n))
            && forall r :: NextRecord(sc, lines, body) == Some(r) ==>
                 && r.body == body && r.seqField.Int? && Follows(sc, last.record.seqField, r.seqField.n)
                 && r.prevField == Text(sc.str(last.record.hashField))
                 && r.hashField == Text(sc.hash(body, r.seqField, r.prevField))
    ensures NextRecord(sc, [], body) == Some(Record(body, Int(0), Text(""), Text(sc.hash(body, Int(0), Text("")))))
  {
    var last := lines[|lines| - 1];
    if last.Dict? && AsInt(sc, last.record.seqField).Some? {
      assert Follows(sc, last.record.seqField, AsInt(sc, last.record.seqField).value + 1);
    }
  }

  /** The head of a log: none when it is empty or its last hash prints as nothing, an error where the last
      line is no record, and else that hash, "None" standing for one that is missing. */
  lemma HeadTells<B>(sc: Scheme<B>, lines: seq<Line<B>>)
    ensures HeadHash(sc, lines).Err? <==> lines != [] && lines[|lines| - 1].Junk?
    ensures lines == [] ==> HeadHash(sc, lines) == Ok(None)
    ensures lines != [] && lines[|lines| - 1].Dict? ==>
              var f := lines[|lines| - 1].record.hashField;
              && (f == Absent ==> HeadHash(sc, lines) == Ok(Some("None")))
              && (f != Absent && sc.str(f) == "" ==> HeadHash(sc, lines) == Ok(None))
              && (f != Absent && sc.str(f) != "" ==> HeadHash(sc, lines) == Ok(Some(sc.str(f))))
  {
  }

  /** The log that appending `bodies` one after another to an empty file leaves. */
  function Log<B>(sc: Scheme<B>, bodies: seq<B>): (lines: seq<Line<B>>)
    ensures |lines| == |bodies|
  {
    if bodies == [] then []
    else
      var before := Log(sc, bodies[..|bodies| - 1]);
      var k := |bodies| - 1;
      before + [Dict(Sealed(sc, bodies[k], k,
                            if k == 0 || before[k - 1].Junk? then "" else sc.str(before[k - 1].record.hashField)))]
  }

  // ----- what the chain commits to

  /** Two verifying logs with the same head hash are the same log, record for record. */
  lemma {:induction false} HeadCommitsToHistory<B(!new)>(sc: Scheme<B>, a: seq<Line<B>>, b: seq<Line<B>>)
    requires Lawful(sc) && Intact(sc, a) && Intact(sc, b)
    requires HeadHash(sc, a) == HeadHash(sc, b)
    requires HeadHash(sc, a).Ok? && HeadHash(sc, a).value.Some?
    ensures a == b
  {
    assert LinkIntact(sc, a, |a| - 1) && LinkIntact(sc, b, |b| - 1);
    SameLastRecord(sc, a, b, |a| - 1, |b| - 1);
    EqualBelow(sc, a, b, |a| - 1);
  }

  /** Equal stored hashes at two places of verifying logs mean equal records at equal indices. */
  lemma SameLastRecord<B(!new)>(sc: Scheme<B>, a: seq<Line<B>>, b: seq<Line<B>>, i: nat, j: nat)
    requires Lawful(sc) && Intact(sc, a) && Intact(sc, b)
    requires i < |a| && j < |b|
    requires a[i].Dict? && b[j].Dict?
    requires sc.str(a[i].record.hashField) == sc.str(b[j].record.hashField)
    ensures i == j && a[i] == b[j]
  {
    assert LinkIntact(sc, a, i) && LinkIntact(sc, b, j);
  }

  lemma {:induction false} EqualBelow<B(!new)>(sc: Scheme<B>, a: seq<Line<B>>, b: seq<Line<B>>, i: nat)
    requires Lawful(sc) && Intact(sc, a) && Intact(sc, b)
    requires i < |a| && i < |b| && a[i] == b[i]
    ensures a[..i + 1] == b[..i + 1]
    decreases i
  {
    if i > 0 {
      assert LinkIntact(sc, a, i) && LinkIntact(sc, b, i);
      assert LinkIntact(sc, a, i - 1) && LinkIntact(sc, b, i - 1);
      SameLastRecord(sc, a, b, i - 1, i - 1);
      EqualBelow(sc, a, b, i - 1);
      assert a[..i + 1] == a[..i] + [a[i]];
      assert b[..i + 1] == b[..i] + [b[i]];
    }
  }

  /** A record says where it belongs: taken into another verifying log it sits at the same index. */
  lemma SameLineSamePlace<B>(sc: Scheme<B>, log: seq<Line<B>>, picked: seq<Line<B>>, i: nat)
    requires Intact(sc, log) && Intact(sc, picked)
    requires i < |picked| && picked[i] in log
    ensures i < |log| && picked[i] == log[i]
  {
    assert LinkIntact(sc, picked, i);
    var j :| 0 <= j < |log| && log[j] == picked[i];
    assert LinkIntact(sc, log, j);
  }

  /** Deleting, reordering or repeating records: whatever is assembled from lines of a
      verifying log verifies exactly when it is a prefix of that log. */
  lemma RearrangementVerifiesIffPrefix<B>(sc: Scheme<B>, log: seq<Line<B>>, picked: seq<Line<B>>)
    requires Intact(sc, log)
    requires forall line :: line in picked ==> line in log
    ensures Intact(sc, picked) <==> picked <= log
  {
    if Intact(sc, picked) && picked != [] {
      SameLineSamePlace(sc, log, picked, |picked| - 1);
      forall i | 0 <= i < |picked|
        ensures picked[i] == log[i]
      {
        SameLineSamePlace(sc, log, picked, i);
      }
    }
    if picked <= log {
      PrefixIntact(sc, log, |picked|);
      assert log[..|picked|] == picked;
    }
  }

  lemma PrefixIntact<B>(sc: Scheme<B>, log: seq<Line<B>>, n: nat)
    requires Intact(sc, log) && n <= |log|
    ensures Intact(sc, log[..n])
  {
    forall i | 0 <= i < n
      ensures LinkIntact(sc, log[..n], i)
    {
      assert LinkIntact(sc, log, i);
    }
  }

  /** The next line's previous-hash field repeats this line's stored hash. */
  lemma NextLinkPinsHash<B>(sc: Scheme<B>, log: seq<Line<B>>, i: nat)
    requires Intact(sc, log) && i + 1 < |log|
    requires forall t :: sc.str(Text(t)) == t
    ensures log[i].Dict? && log[i + 1].Dict?
    ensures log[i].record.hashField == Text(sc.str(log[i + 1].record.prevField))
  {
    assert LinkIntact(sc, log, i) && LinkIntact(sc, log, i + 1);
  }

  /** An edit in place survives verification only on the last line, and only when the edited
      record is resealed there: every edit that keeps the stored hash, and every edit before
      the last record, is caught. */
  lemma EditVerifiesIffResealedTail<B(!new)>(sc: Scheme<B>, log: seq<Line<B>>, i: nat, edited: Line<B>)
    requires Lawful(sc) && Intact(sc, log) && i < |log| && edited != log[i]
    ensures Intact(sc, log[i := edited]) <==> i == |log| - 1 && LinkIntact(sc, log[i := edited], i)
    ensures edited.Dict? && log[i].Dict? && edited.record.hashField == log[i].record.hashField
            ==> !Intact(sc, log[i := edited])
  {
    var after := log[i := edited];
    assert LinkIntact(sc, log, i);
    if Intact(sc, after) {
      assert LinkIntact(sc, after, i);
      assert edited.record.hashField != log[i].record.hashField;
      if i + 1 < |log| {
        assert false by {
          NextLinkPinsHash(sc, after, i);
          NextLinkPinsHash(sc, log, i);
        }
      }
    }
    if i == |log| - 1 && LinkIntact(sc, after, i) {
      forall k | 0 <= k < |after|
        ensures LinkIntact(sc, after, k)
      {
        if k < i { assert LinkIntact(sc, log, k); }
      }
    }
  }

  /** Appending never launders corruption: the longer log verifies exactly when the log did. */
  lemma AppendVerifiesIffLogDid<B>(sc: Scheme<B>, lines: seq<Line<B>>, body: B)
    requires forall t :: sc.str(Text(t)) == t
    requires NextRecord(sc, lines, body).Some?
    ensures Intact(sc, lines + [Dict(NextRecord(sc, lines, body).value)]) <==> Intact(sc, lines)
  {
    var longer := lines + [Dict(NextRecord(sc, lines, body).value)];
    if Intact(sc, longer) {
      PrefixIntact(sc, longer, |lines|);
      assert longer[..|lines|] == lines;
    }
    if Intact(sc, lines) {
      forall i | 0 <= i < |longer|
        ensures LinkIntact(sc, longer, i)
      {
        if i < |lines| {
          assert LinkIntact(sc, lines, i);
        } else if lines != [] {
          assert LinkIntact(sc, lines, |lines| - 1);
        }
      }
    }
  }

  /** A log written by appends alone verifies and holds the appended events in order. */
  lemma {:induction false} LogIsIntact<B>(sc: Scheme<B>, bodies: seq<B>)
    requires forall t :: sc.str(Text(t)) == t
    ensures Intact(sc, Log(sc, bodies))
    ensures forall i :: 0 <= i < |bodies| ==> Log(sc, bodies)[i].Dict? && Log(sc, bodies)[i].record.body == bodies[i]
  {
    if bodies != [] {
      var k := |bodies| - 1;
      LogIsIntact(sc, bodies[..k]);
      LogStep(sc, bodies[..k], bodies[k]);
      assert bodies[..k] + [bodies[k]] == bodies;
      AppendVerifiesIffLogDid(sc, Log(sc, bodies[..k]), bodies[k]);
    }
  }

  /** `append_evidence` on such a log continues it. */
  lemma LogStep<B>(sc: Scheme<B>, bodies: seq<B>, body: B)
    requires Intact(sc, Log(sc, bodies))
    ensures NextRecord(sc, Log(sc, bodies), body).Some?
    ensures Log(sc, bodies + [body]) ==
            Log(sc, bodies) + [Dict(NextRecord(sc, Log(sc, bodies), body).value)]
  {
    assert (bodies + [body])[..|bodies|] == bodies;
    if bodies != [] { assert LinkIntact(sc, Log(sc, bodies), |bodies| - 1); }
  }

  lemma {:induction false} LogOfExtension<B>(sc: Scheme<B>, bodies: seq<B>, more: seq<B>)
    ensures Log(sc, bodies) <= Log(sc, bodies + more)
    decreases |more|
  {
    if more == [] {
      assert bodies + more == bodies;
    } else {
      var k := |more| - 1;
      LogOfExtension(sc, bodies, more[..k]);
      assert (bodies + more)[..|bodies + more| - 1] == bodies + more[..k];
    }
  }
}
