/** The collection loop of the serial-to-CSV sample collector: each decoded
    line read from the device is stripped, blank lines and repeated headers
    are skipped, and a line of exactly six comma-separated fields becomes one
    CSV row, counted towards the current gesture of `numSamples` samples.

    The specification comes in two layers. `Classify` is the decision the
    loop body takes on one line (strip, blank test, header test, split,
    field count); `Apply` is what that decision does to the run's state
    (`Session`). `Replay` and `Feed` extend both to a finite stream of lines.
    `SampleCollector` is the loop itself, with the run's state in fields. */
module Collector {
  import opened Text

  /** Samples per gesture, as the collector is configured. */
  const NUM_SAMPLES: nat := 119

  const COMMA: char := ','

  /** The header text the device may repeat on the wire. */
  const HEADER: string := "aX,aY,aZ,gX,gY,gZ"

  /** The header row written first to the table. */
  const HEADER_FIELDS: seq<string> := ["aX", "aY", "aZ", "gX", "gY", "gZ"]

  /** The console diagnostics that depend on the input: a repeated header, a
      line with the wrong number of fields (with its stripped text), and a
      completed gesture (with the new gesture count). */
  datatype Notice = HeaderSkipped | BadFormat(line: string) | GestureComplete(gestures: nat)

  /** The state of one run: the rows written so far (header first), the
      samples counted towards the current gesture, the number of completed
      gestures, and the diagnostics emitted. */
  datatype Session = Session(
    rows: seq<seq<string>>,
    samplesCollected: nat,
    gestures: nat,
    notices: seq<Notice>)

  /** The state right after the header row is written and the counters are
      set to zero; the loop invariant holds in it for any positive number of
      samples per gesture. */
  function Initial(): (s: Session)
    ensures forall n: nat :: n > 0 ==> Inv(n, s)
  {
    Session([HEADER_FIELDS], 0, 0, [])
  }

  /** How the loop body sees one read line. */
  datatype Kind =
    | Blank                         // nothing left once stripped
    | Header                        // starts with the header text
    | Sample(fields: seq<string>)   // six comma-separated fields
    | Malformed(line: string)       // any other field count

  /** A sample has six comma-free fields and is not the header row. */
  predicate WellFormed(k: Kind) {
    k.Sample? ==>
      |k.fields| == 6 && k.fields != HEADER_FIELDS
      && forall i :: 0 <= i < |k.fields| ==> COMMA !in k.fields[i]
  }

  /** The header row joined with commas is the header text. */
  lemma JoinHeader()
    ensures Join(HEADER_FIELDS, COMMA) == HEADER
  {
    assert Join(HEADER_FIELDS[5..], COMMA) == "gZ";
    assert Join(HEADER_FIELDS[3..], COMMA) == "gX,gY,gZ";
    assert Join(HEADER_FIELDS[1..], COMMA) == "aY,aZ,gX,gY,gZ";
  }

  /** The header text has six fields, so only the prefix test keeps a
      repeated header out of the table. */
  lemma HeaderHasSixFields()
    ensures Split(HEADER, COMMA) == HEADER_FIELDS
  {
    JoinHeader();
    SplitJoin(HEADER_FIELDS, COMMA);
  }

  /** Only the header text itself splits into the header row, so a line
      that does not start with the header text is never written as one. */
  lemma SampleIsNotHeader(line: string)
    requires !StartsWith(line, HEADER)
    ensures Split(line, COMMA) != HEADER_FIELDS
  {
    HeaderHasSixFields();
    SplitInjective(line, HEADER, COMMA);
  }

  /** The loop body's decision on one read line: strip it, skip it when
      nothing is left, skip it as a repeated header when it starts with the
      header text, and otherwise split it and take it as a sample exactly
      when it has six fields. What is taken is always well-formed;
      `ClassifyMeaning` states each outcome in terms of the line. */
  function Classify(raw: string): (k: Kind)
    ensures WellFormed(k)
  {
    var line := Strip(raw);
    if line != [] && !StartsWith(line, HEADER) then
      var values := Split(line, COMMA);
      SampleIsNotHeader(line);
      if |values| == 6 then Sample(values) else Malformed(line)
    else if StartsWith(line, HEADER) then
      Header
    else
      Blank
  }

  /** A line is blank exactly when it is all whitespace, and a repeated
      header exactly when its stripped text starts with the header text; a
      malformed line carries its stripped text, which does not have six
      fields, and a sample's fields are those of the stripped line and join
      back to it. */
  lemma ClassifyMeaning(raw: string)
    ensures var k := Classify(raw);
      && (k == Blank <==> AllSpace(raw))
      && (k == Header <==> StartsWith(Strip(raw), HEADER))
      && (k.Malformed? ==>
            k.line == Strip(raw) && k.line != [] && |Split(k.line, COMMA)| != 6)
      && (k.Sample? ==>
            k.fields == Split(Strip(raw), COMMA) && Join(k.fields, COMMA) == Strip(raw))
      && (Strip(raw) != [] && !StartsWith(Strip(raw), HEADER) ==>
            if |Split(Strip(raw), COMMA)| == 6 then k == Sample(Split(Strip(raw), COMMA))
            else k == Malformed(Strip(raw)))
  {
    ClassifySample(raw);
  }

  /** A sample's fields are those of the stripped line, and they join back
      to it. */
  lemma ClassifySample(raw: string)
    ensures Classify(raw).Sample? ==>
      Classify(raw).fields == Split(Strip(raw), COMMA)
      && Join(Classify(raw).fields, COMMA) == Strip(raw)
  {
    JoinSplit(Strip(raw), COMMA);
  }

  /** What the loop body does to the session for a line of the given kind. */
  function Apply(numSamples: nat, s: Session, k: Kind): Session {
    match k
    case Sample(fields) =>
      var count := s.samplesCollected + 1;
      if count == numSamples then
        Session(s.rows + [fields], 0, s.gestures + 1,
                s.notices + [GestureComplete(s.gestures + 1)])
      else
        Session(s.rows + [fields], count, s.gestures, s.notices)
    case Malformed(line) => s.(notices := s.notices + [BadFormat(line)])
    case Header => s.(notices := s.notices + [HeaderSkipped])
    case Blank => s
  }

  /** A finite stream of classified lines, applied in arrival order. */
  function Replay(numSamples: nat, s: Session, ks: seq<Kind>): Session
    decreases |ks|
  {
    if ks == [] then s
    else Apply(numSamples, Replay(numSamples, s, ks[..|ks| - 1]), ks[|ks| - 1])
  }

  /** The classification of each line of a stream. */
  function Classes(lines: seq<string>): seq<Kind> {
    seq(|lines|, i requires 0 <= i < |lines| => Classify(lines[i]))
  }

  /** A finite stream of read lines, handled in arrival order. */
  function Feed(numSamples: nat, s: Session, lines: seq<string>): Session {
    Replay(numSamples, s, Classes(lines))
  }

  /** The fields of the samples of a classified stream, in order. */
  function Samples(ks: seq<Kind>): seq<seq<string>>
    decreases |ks|
  {
    if ks == [] then []
    else
      var last := ks[|ks| - 1];
      Samples(ks[..|ks| - 1]) + if last.Sample? then [last.fields] else []
  }

  /** The stripped text of the lines of a stream that are samples, in
      arrival order. */
  function Accepted(lines: seq<string>): seq<string>
    decreases |lines|
  {
    if lines == [] then []
    else
      var last := lines[|lines| - 1];
      Accepted(lines[..|lines| - 1]) + if Classify(last).Sample? then [Strip(last)] else []
  }

  /** What holds between any two iterations of the loop: the header is the
      first row and no other row equals it, every other row has six fields,
      the counter stays below `numSamples`, and completed gestures and the
      counter together account for every data row. */
  ghost predicate Inv(numSamples: nat, s: Session) {
    numSamples > 0
    && |s.rows| >= 1 && s.rows[0] == HEADER_FIELDS
    && (forall i :: 1 <= i < |s.rows| ==> |s.rows[i]| == 6 && s.rows[i] != HEADER_FIELDS)
    && s.samplesCollected < numSamples
    && s.gestures * numSamples + s.samplesCollected == |s.rows| - 1
  }

  /** A line with the header text after leading whitespace is a repeated
      header, whatever follows the header text. */
  lemma HeaderLineSkipped(pre: string, suffix: string)
    requires AllSpace(pre)
    ensures Classify(pre + HEADER + suffix) == Header
  {
    var raw := pre + HEADER + suffix;
    assert raw == pre + (HEADER + suffix);
    TrimStartSpaces(pre, HEADER + suffix);
    TrimEndKeepsPrefix(HEADER, suffix);
    assert (HEADER + TrimEnd(suffix))[..|HEADER|] == HEADER;
    assert Strip(raw) == HEADER + TrimEnd(suffix);
  }

  /** A sample appends exactly its fields as one row and counts one more
      sample: the counter stays below `numSamples`, and the gesture count
      rises, by one, exactly when the counter is reset to 0, which is also
      the only case with a notice. */
  lemma ApplySample(numSamples: nat, s: Session, fields: seq<string>)
    requires Inv(numSamples, s)
    ensures var r := Apply(numSamples, s, Sample(fields));
      && r.rows == s.rows + [fields]
      && r.gestures * numSamples + r.samplesCollected
         == s.gestures * numSamples + s.samplesCollected + 1
      && r.samplesCollected < numSamples
      && (r.samplesCollected == 0 <==> s.samplesCollected + 1 == numSamples)
      && r.gestures == (if r.samplesCollected == 0 then s.gestures + 1 else s.gestures)
      && r.notices == s.notices + if r.samplesCollected == 0 then [GestureComplete(r.gestures)] else []
  {
    assert (s.gestures + 1) * numSamples == s.gestures * numSamples + numSamples;
  }

  /** Any other line writes no row and leaves both counters alone; a blank
      line changes nothing at all, the others add one notice, a malformed
      one quoting the line. */
  lemma ApplyOther(numSamples: nat, s: Session, k: Kind)
    requires !k.Sample?
    ensures var r := Apply(numSamples, s, k);
      && r.rows == s.rows && r.samplesCollected == s.samplesCollected && r.gestures == s.gestures
      && (k == Blank ==> r == s)
      && (k == Header ==> r.notices == s.notices + [HeaderSkipped])
      && (k.Malformed? ==> r.notices == s.notices + [BadFormat(k.line)])
  {
  }

  /** Every well-formed line keeps the loop invariant. */
  lemma ApplyKeepsInv(numSamples: nat, s: Session, k: Kind)
    requires Inv(numSamples, s) && WellFormed(k)
    ensures Inv(numSamples, Apply(numSamples, s, k))
  {
    if k.Sample? {
      ApplySample(numSamples, s, k.fields);
      var r := Apply(numSamples, s, k);
      assert forall i :: 1 <= i < |r.rows| ==>
        r.rows[i] == if i < |s.rows| then s.rows[i] else k.fields;
    }
  }

  /** Replaying a stream in two parts is replaying it whole. */
  lemma {:induction false} ReplayAppend(numSamples: nat, s: Session, ks: seq<Kind>, js: seq<Kind>)
    ensures Replay(numSamples, s, ks + js) == Replay(numSamples, Replay(numSamples, s, ks), js)
    decreases |js|
  {
    if js == [] {
      assert ks + js == ks;
    } else {
      var all, init, last := ks + js, js[..|js| - 1], js[|js| - 1];
      assert all[..|all| - 1] == ks + init;
      assert all[|all| - 1] == last;
      ReplayAppend(numSamples, s, ks, init);
    }
  }

  /** The samples of a stream in two parts. */
  lemma {:induction false} SamplesAppend(ks: seq<Kind>, js: seq<Kind>)
    ensures Samples(ks + js) == Samples(ks) + Samples(js)
    decreases |js|
  {
    if js == [] {
      assert ks + js == ks;
    } else {
      var all, init, last := ks + js, js[..|js| - 1], js[|js| - 1];
      assert all[..|all| - 1] == ks + init;
      assert all[|all| - 1] == last;
      SamplesAppend(ks, init);
    }
  }

  /** A stream of well-formed lines keeps the loop invariant. */
  lemma {:induction false} ReplayKeepsInv(numSamples: nat, s: Session, ks: seq<Kind>)
    requires Inv(numSamples, s)
    requires forall i :: 0 <= i < |ks| ==> WellFormed(ks[i])
    ensures Inv(numSamples, Replay(numSamples, s, ks))
    decreases |ks|
  {
    if ks != [] {
      var init := ks[..|ks| - 1];
      ReplayKeepsInv(numSamples, s, init);
      ApplyKeepsInv(numSamples, Replay(numSamples, s, init), ks[|ks| - 1]);
    }
  }

  /** The rows a stream adds are exactly the fields of its samples, in
      arrival order, after the rows already written. */
  lemma {:induction false} ReplayRows(numSamples: nat, s: Session, ks: seq<Kind>)
    ensures Replay(numSamples, s, ks).rows == s.rows + Samples(ks)
    decreases |ks|
  {
    if ks != [] {
      ReplayRows(numSamples, s, ks[..|ks| - 1]);
    } else {
      assert s.rows + [] == s.rows;
    }
  }

  /** The gesture count never decreases. */
  lemma {:induction false} ReplayGesturesMonotone(numSamples: nat, s: Session, ks: seq<Kind>)
    ensures Replay(numSamples, s, ks).gestures >= s.gestures
    decreases |ks|
  {
    if ks != [] {
      ReplayGesturesMonotone(numSamples, s, ks[..|ks| - 1]);
    }
  }

  /** Samples that do not complete the current gesture only advance the
      counter: no gesture and no notice. */
  lemma {:induction false} ReplayWithinGesture(numSamples: nat, s: Session, ks: seq<Kind>)
    requires Inv(numSamples, s)
    requires forall i :: 0 <= i < |ks| ==> ks[i].Sample? && WellFormed(ks[i])
    requires s.samplesCollected + |ks| < numSamples
    ensures var f := Replay(numSamples, s, ks);
      && Inv(numSamples, f)
      && f.samplesCollected == s.samplesCollected + |ks|
      && f.gestures == s.gestures && f.notices == s.notices
      && |f.rows| == |s.rows| + |ks|
    decreases |ks|
  {
    if ks != [] {
      var init := ks[..|ks| - 1];
      ReplayWithinGesture(numSamples, s, init);
      var p := Replay(numSamples, s, init);
      ReplayKeepsInv(numSamples, s, init);
      ApplySample(numSamples, p, ks[|ks| - 1].fields);
    }
  }

  /** Classifying a stream in two parts. */
  lemma ClassesAppend(xs: seq<string>, ys: seq<string>)
    ensures Classes(xs + ys) == Classes(xs) + Classes(ys)
  {
    assert forall i :: 0 <= i < |xs + ys| ==>
      (xs + ys)[i] == if i < |xs| then xs[i] else ys[i - |xs|];
  }

  /** Row `i` is the split of text `i` into six fields other than the header
      row, and joins back to it. */
  ghost predicate RowsOf(rows: seq<seq<string>>, texts: seq<string>) {
    |rows| == |texts|
    && forall i :: 0 <= i < |texts| ==>
      && rows[i] == Split(texts[i], COMMA)
      && |rows[i]| == 6 && rows[i] != HEADER_FIELDS
      && Join(rows[i], COMMA) == texts[i]
  }

  /** One more row for one more text. */
  lemma RowsOfAppend(rows: seq<seq<string>>, texts: seq<string>, row: seq<string>, text: string)
    requires RowsOf(rows, texts)
    requires row == Split(text, COMMA) && |row| == 6 && row != HEADER_FIELDS
    requires Join(row, COMMA) == text
    ensures RowsOf(rows + [row], texts + [text])
  {
    var rows', texts' := rows + [row], texts + [text];
    forall i | 0 <= i < |texts'|
      ensures rows'[i] == Split(texts'[i], COMMA) && |rows'[i]| == 6
        && rows'[i] != HEADER_FIELDS && Join(rows'[i], COMMA) == texts'[i]
    {
      if i < |texts| {
        assert rows'[i] == rows[i] && texts'[i] == texts[i];
      }
    }
  }

  /** The rows a stream of read lines adds are its sample lines, in arrival
      order, each as its six fields; joined with commas, row `i` is the
      stripped text of the `i`-th sample line. */
  lemma {:induction false} SamplesAccepted(lines: seq<string>)
    ensures |Samples(Classes(lines))| == |Accepted(lines)| <= |lines|
    ensures forall i :: 0 <= i < |Accepted(lines)| ==>
      var row := Samples(Classes(lines))[i];
      && row == Split(Accepted(lines)[i], COMMA)
      && |row| == 6 && row != HEADER_FIELDS
      && Join(row, COMMA) == Accepted(lines)[i]
    decreases |lines|
  {
    if lines != [] {
      var init, last := lines[..|lines| - 1], lines[|lines| - 1];
      SamplesAccepted(init);
      var k := Classify(last);
      ClassifySample(last);
      var ks := Classes(lines);
      assert ks[..|ks| - 1] == Classes(init) && ks[|ks| - 1] == k;
      var rows0, texts0 := Samples(Classes(init)), Accepted(init);
      assert RowsOf(rows0, texts0);
      if k.Sample? {
        assert Samples(ks) == rows0 + [k.fields] && Accepted(lines) == texts0 + [Strip(last)];
        RowsOfAppend(rows0, texts0, k.fields, Strip(last));
      } else {
        assert Samples(ks) == rows0 && Accepted(lines) == texts0;
      }
      assert RowsOf(Samples(ks), Accepted(lines));
    }
  }

  /** From the start of a run: the table is the header row followed by the
      rows of the sample lines, and completed gestures and the counter
      together account for every sample line, the counter below
      `numSamples`. */
  lemma FeedFromStart(numSamples: nat, lines: seq<string>)
    requires numSamples > 0
    ensures var f := Feed(numSamples, Initial(), lines);
      && f.rows == [HEADER_FIELDS] + Samples(Classes(lines))
      && f.gestures * numSamples + f.samplesCollected == |Accepted(lines)|
      && f.samplesCollected < numSamples
  {
    ReplayRows(numSamples, Initial(), Classes(lines));
    ReplayKeepsInv(numSamples, Initial(), Classes(lines));
    SamplesAccepted(lines);
  }

  /** From the start of a run, the table holds the header row exactly once,
      as its first row, however many header lines arrive. */
  lemma HeaderOnce(numSamples: nat, lines: seq<string>)
    requires numSamples > 0
    ensures var f := Feed(numSamples, Initial(), lines);
      && |f.rows| >= 1 && f.rows[0] == HEADER_FIELDS
      && forall i :: 1 <= i < |f.rows| ==> f.rows[i] != HEADER_FIELDS
  {
    ReplayKeepsInv(numSamples, Initial(), Classes(lines));
  }

  /** In a stream of sample lines only, every line is written, and every
      classification is a well-formed sample. */
  lemma {:induction false} AllSamples(lines: seq<string>)
    requires forall i :: 0 <= i < |lines| ==> Classify(lines[i]).Sample?
    ensures |Accepted(lines)| == |Classes(lines)| == |lines|
    ensures forall i :: 0 <= i < |lines| ==>
      Classes(lines)[i].Sample? && WellFormed(Classes(lines)[i])
    decreases |lines|
  {
    if lines != [] {
      AllSamples(lines[..|lines| - 1]);
    }
  }

  /** `numSamples` samples from the start of a gesture complete it: as many
      new rows, one more gesture, the counter back at 0, and one notice. */
  lemma ReplayOneGesture(numSamples: nat, s: Session, ks: seq<Kind>)
    requires Inv(numSamples, s) && s.samplesCollected == 0
    requires |ks| == numSamples
    requires forall i :: 0 <= i < |ks| ==> ks[i].Sample? && WellFormed(ks[i])
    ensures var f := Replay(numSamples, s, ks);
      && |f.rows| == |s.rows| + numSamples
      && f.gestures == s.gestures + 1 && f.samplesCollected == 0
      && f.notices == s.notices + [GestureComplete(s.gestures + 1)]
  {
    var init := ks[..|ks| - 1];
    ReplayWithinGesture(numSamples, s, init);
    ApplySample(numSamples, Replay(numSamples, s, init), ks[|ks| - 1].fields);
  }

  /** One full gesture of sample lines, from the start: the header and
      `NUM_SAMPLES` data rows, one gesture, the counter back at 0, and a
      single gesture notice. */
  lemma OneGesture(lines: seq<string>)
    requires |lines| == NUM_SAMPLES
    requires forall i :: 0 <= i < |lines| ==> Classify(lines[i]).Sample?
    ensures var f := Feed(NUM_SAMPLES, Initial(), lines);
      && |f.rows| == 1 + NUM_SAMPLES && f.gestures == 1 && f.samplesCollected == 0
      && f.notices == [GestureComplete(1)]
  {
    AllSamples(lines);
    ReplayOneGesture(NUM_SAMPLES, Initial(), Classes(lines));
  }

  /** Classifying a stream framed by two header lines. */
  lemma ClassesFramed(lines: seq<string>)
    ensures Classes([HEADER] + lines + [HEADER]) == [Header] + Classes(lines) + [Header]
  {
    assert [] + HEADER + [] == HEADER;
    HeaderLineSkipped([], []);
    assert Classes([HEADER]) == [Header];
    ClassesAppend([HEADER], lines);
    ClassesAppend([HEADER] + lines, [HEADER]);
  }

  /** The notices a run starts with affect nothing else: the same stream
      from the same rows and counters reaches the same rows and counters,
      and adds the same notices after whatever notices came before. */
  lemma {:induction false} ReplayNotices(numSamples: nat, s: Session, m: seq<Notice>, ks: seq<Kind>)
    ensures var a, b := Replay(numSamples, s, ks), Replay(numSamples, s.(notices := m), ks);
      && b.rows == a.rows && b.samplesCollected == a.samplesCollected && b.gestures == a.gestures
      && |s.notices| <= |a.notices| && a.notices[..|s.notices|] == s.notices
      && b.notices == m + a.notices[|s.notices|..]
    decreases |ks|
  {
    var n := |s.notices|;
    if ks == [] {
      assert s.notices[n..] == [] && m + [] == m;
    } else {
      var init, k := ks[..|ks| - 1], ks[|ks| - 1];
      ReplayNotices(numSamples, s, m, init);
      var a0, b0 := Replay(numSamples, s, init), Replay(numSamples, s.(notices := m), init);
      var a, b := Apply(numSamples, a0, k), Apply(numSamples, b0, k);
      var added := a.notices[|a0.notices|..];
      assert a.notices == a0.notices + added && b.notices == b0.notices + added;
      assert a.notices[..n] == a0.notices[..n];
      assert a.notices[n..] == a0.notices[n..] + added;
      assert b.notices == m + (a0.notices[n..] + added);
    }
  }

  /** Two header lines around a stream leave its rows and counters as they
      are and add one header notice before and one after its own notices. */
  lemma ReplayFramed(numSamples: nat, s: Session, ks: seq<Kind>)
    ensures var s1 := s.(notices := s.notices + [HeaderSkipped]);
      var g, u := Replay(numSamples, s1, ks), Replay(numSamples, s, ks);
      && Replay(numSamples, s, [Header] + ks + [Header]) == g.(notices := g.notices + [HeaderSkipped])
      && g.rows == u.rows && g.samplesCollected == u.samplesCollected && g.gestures == u.gestures
      && |s.notices| <= |u.notices|
      && g.notices == s.notices + [HeaderSkipped] + u.notices[|s.notices|..]
  {
    var s1 := s.(notices := s.notices + [HeaderSkipped]);
    assert Replay(numSamples, s, [Header]) == s1;
    ReplayAppend(numSamples, s, [Header], ks);
    ReplayAppend(numSamples, s, [Header] + ks, [Header]);
    var g := Replay(numSamples, s1, ks);
    assert Replay(numSamples, g, [Header]) == Apply(numSamples, g, Header);
    ReplayNotices(numSamples, s, s.notices + [HeaderSkipped], ks);
  }

  /** One gesture of samples between two header lines, from the start. */
  lemma ReplayGestureFramed(ks: seq<Kind>)
    requires |ks| == NUM_SAMPLES
    requires forall i :: 0 <= i < |ks| ==> ks[i].Sample? && WellFormed(ks[i])
    ensures var f := Replay(NUM_SAMPLES, Initial(), [Header] + ks + [Header]);
      && f.rows == Replay(NUM_SAMPLES, Initial(), ks).rows
      && |f.rows| == 1 + NUM_SAMPLES && f.gestures == 1 && f.samplesCollected == 0
      && f.notices == [HeaderSkipped, GestureComplete(1), HeaderSkipped]
  {
    var s1 := Initial().(notices := Initial().notices + [HeaderSkipped]);
    assert s1.notices == [HeaderSkipped];
    assert Inv(NUM_SAMPLES, s1);
    ReplayFramed(NUM_SAMPLES, Initial(), ks);
    ReplayOneGesture(NUM_SAMPLES, s1, ks);
    var g := Replay(NUM_SAMPLES, s1, ks);
    assert g.notices == [HeaderSkipped] + [GestureComplete(1)];
    assert g.notices + [HeaderSkipped] == [HeaderSkipped, GestureComplete(1), HeaderSkipped];
  }

  /** The same gesture framed by a repeated header line on either side: the
      same table and counters, and the two headers show only as notices. */
  lemma OneGestureBetweenHeaders(lines: seq<string>)
    requires |lines| == NUM_SAMPLES
    requires forall i :: 0 <= i < |lines| ==> Classify(lines[i]).Sample?
    ensures var f := Feed(NUM_SAMPLES, Initial(), [HEADER] + lines + [HEADER]);
      && f.rows == Feed(NUM_SAMPLES, Initial(), lines).rows
      && |f.rows| == 1 + NUM_SAMPLES && f.gestures == 1 && f.samplesCollected == 0
      && f.notices == [HeaderSkipped, GestureComplete(1), HeaderSkipped]
  {
    ClassesFramed(lines);
    AllSamples(lines);
    ReplayGestureFramed(Classes(lines));
  }

  /** Fewer than six fields can never start with the header text, which
      alone has five commas. */
  lemma FewFieldsNotHeader(line: string)
    requires |Split(line, COMMA)| < 6
    ensures !StartsWith(line, HEADER)
  {
    if StartsWith(line, HEADER) {
      var rest := line[|HEADER|..];
      assert line == HEADER + rest;
      CountAppend(HEADER, rest, COMMA);
    }
  }

  /** A line with five fields, from the start: no row, no count, and one
      notice quoting the stripped line. */
  lemma FiveFieldLine(raw: string)
    requires |Split(Strip(raw), COMMA)| == 5
    ensures Feed(NUM_SAMPLES, Initial(), [raw]) == Initial().(notices := [BadFormat(Strip(raw))])
  {
    var line := Strip(raw);
    FewFieldsNotHeader(line);
    assert line != [];
    assert Classify(raw) == Malformed(line);
    assert Classes([raw]) == [Malformed(line)];
    assert [Malformed(line)][..0] == [];
    assert Replay(NUM_SAMPLES, Initial(), [Malformed(line)])
        == Apply(NUM_SAMPLES, Initial(), Malformed(line));
    assert [] + [BadFormat(line)] == [BadFormat(line)];
  }

  /** A run stopped after fifty sample lines: the header and fifty rows, no
      gesture complete, and the counter at fifty. */
  lemma StoppedMidGesture(lines: seq<string>)
    requires |lines| == 50
    requires forall i :: 0 <= i < |lines| ==> Classify(lines[i]).Sample?
    ensures var f := Feed(NUM_SAMPLES, Initial(), lines);
      && |f.rows| == 51 && f.gestures == 0 && f.samplesCollected == 50 && f.notices == []
  {
    AllSamples(lines);
    ReplayWithinGesture(NUM_SAMPLES, Initial(), Classes(lines));
  }

  /** The collection loop, with the run's state held in fields. */
  class SampleCollector {
    const numSamples: nat
    var rows: seq<seq<string>>
    var samplesCollected: nat
    var gestures: nat
    var notices: seq<Notice>

    function Snapshot(): Session
      reads this
    {
      Session(rows, samplesCollected, gestures, notices)
    }

    ghost predicate Valid()
      reads this
    {
      Inv(numSamples, Snapshot())
    }

    /** Writes the header row and sets both counters to zero. */
    constructor (numSamples: nat)
      requires numSamples > 0
      ensures Valid() && this.numSamples == numSamples
      ensures Snapshot() == Initial()
    {
      this.numSamples := numSamples;
      rows := [HEADER_FIELDS];
      samplesCollected := 0;
      gestures := 0;
      notices := [];
    }

    /** Handles one line read from the device. */
    method Step(raw: string)
      requires Valid()
      modifies this
      ensures Valid()
      ensures Snapshot() == Apply(numSamples, old(Snapshot()), Classify(raw))
    {
      ApplyKeepsInv(numSamples, Snapshot(), Classify(raw));
      var line := Strip(raw);
      if line != [] && !StartsWith(line, HEADER) {
        var values := Split(line, COMMA);
        if |values| == 6 {
          rows := rows + [values];
          samplesCollected := samplesCollected + 1;
          if samplesCollected == numSamples {
            samplesCollected := 0;
            gestures := gestures + 1;
            notices := notices + [GestureComplete(gestures)];
          }
        } else {
          notices := notices + [BadFormat(line)];
        }
      } else if StartsWith(line, HEADER) {
        notices := notices + [HeaderSkipped];
      }
    }

    /** Handles the lines read until the run is stopped, in order. */
    method Run(lines: seq<string>)
      requires Valid()
      modifies this
      ensures Valid()
      ensures Snapshot() == Feed(numSamples, old(Snapshot()), lines)
    {
      var i := 0;
      while i < |lines|
        invariant 0 <= i <= |lines|
        invariant Valid()
        invariant Snapshot() == Feed(numSamples, old(Snapshot()), lines[..i])
      {
        ghost var ks := Classes(lines[..i + 1]);
        assert ks[..i] == Classes(lines[..i]) && ks[i] == Classify(lines[i]);
        Step(lines[i]);
        i := i + 1;
      }
      assert lines[..i] == lines;
    }
  }

  /** A table made of the header row and rows that each join back to one of
      the given texts. */
  lemma TableOf(table: seq<seq<string>>, rows: seq<seq<string>>, texts: seq<string>)
    requires table == [HEADER_FIELDS] + rows && |rows| == |texts|
    requires forall i :: 0 <= i < |texts| ==>
      rows[i] == Split(texts[i], COMMA) && |rows[i]| == 6 && Join(rows[i], COMMA) == texts[i]
    ensures |table| == 1 + |texts| && table[0] == HEADER_FIELDS
    ensures forall i :: 0 <= i < |texts| ==>
      table[1 + i] == Split(texts[i], COMMA)
      && |table[1 + i]| == 6 && Join(table[1 + i], COMMA) == texts[i]
  {
    forall i | 0 <= i < |texts|
      ensures table[1 + i] == Split(texts[i], COMMA)
        && |table[1 + i]| == 6 && Join(table[1 + i], COMMA) == texts[i]
    {
      assert table[1 + i] == rows[i];
    }
  }

  /** The table and counters of a whole run with `NUM_SAMPLES` samples per
      gesture, from its read lines. */
  lemma SessionTable(lines: seq<string>)
    ensures var f := Feed(NUM_SAMPLES, Initial(), lines);
      && f.rows == [HEADER_FIELDS] + Samples(Classes(lines))
      && |f.rows| == 1 + |Accepted(lines)| && f.rows[0] == HEADER_FIELDS
      && (forall i :: 0 <= i < |Accepted(lines)| ==>
            f.rows[1 + i] == Split(Accepted(lines)[i], COMMA)
            && |f.rows[1 + i]| == 6 && Join(f.rows[1 + i], COMMA) == Accepted(lines)[i])
      && (forall i :: 1 <= i < |f.rows| ==> f.rows[i] != HEADER_FIELDS)
      && f.gestures * NUM_SAMPLES + f.samplesCollected == |Accepted(lines)|
      && f.samplesCollected < NUM_SAMPLES
  {
    FeedFromStart(NUM_SAMPLES, lines);
    SamplesAccepted(lines);
    HeaderOnce(NUM_SAMPLES, lines);
    TableOf(Feed(NUM_SAMPLES, Initial(), lines).rows, Samples(Classes(lines)), Accepted(lines));
  }

  /** One whole run with `NUM_SAMPLES` samples per gesture: the table is the
      header row followed by the fields of every sample line in arrival
      order, each the split of its stripped line into six fields, no data row equal to the header row, and completed gestures and
      the counter account for every sample line. */
  method CollectSession(lines: seq<string>)
    returns (table: seq<seq<string>>, gestures: nat, samplesCollected: nat)
    ensures table == [HEADER_FIELDS] + Samples(Classes(lines))
    ensures |table| == 1 + |Accepted(lines)| && table[0] == HEADER_FIELDS
    ensures forall i :: 0 <= i < |Accepted(lines)| ==>
      table[1 + i] == Split(Accepted(lines)[i], COMMA)
      && |table[1 + i]| == 6 && Join(table[1 + i], COMMA) == Accepted(lines)[i]
    ensures forall i :: 1 <= i < |table| ==> table[i] != HEADER_FIELDS
    ensures gestures * NUM_SAMPLES + samplesCollected == |Accepted(lines)|
    ensures samplesCollected < NUM_SAMPLES
  {
    var collector := new SampleCollector(NUM_SAMPLES);
    collector.Run(lines);
    table, gestures, samplesCollected := collector.rows, collector.gestures, collector.samplesCollected;
    SessionTable(lines);
  }
}
