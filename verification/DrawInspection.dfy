/** The whole inspection: every recording is read for its draws, then the frame's submissions turn the draws of
    the readable ones into executions. */
module DrawInspection {
  import opened Prelude
  import opened DrawReading
  import opened DrawState
  import opened DrawExecutions

  /** The draws of a legal recording, in order, with the state its command history gives each. */
  ghost predicate AreDraws(calls: seq<Call>, draws: seq<DrawRecord>) {
    && Legal(calls, false) && |draws| == |DrawPlaces(calls, |calls|)|
    && forall k :: 0 <= k < |draws| ==> IsDraw(calls, DrawPlaces(calls, |calls|)[k], draws[k])
  }

  ghost predicate IsDraw(calls: seq<Call>, place: nat, draw: DrawRecord) {
    place < |calls| && calls[place].command.Draw? && DrawOk(calls, place, draw)
  }

  /** Exactly the legal recordings have draws, and they have the ones their commands give. */
  ghost predicate ReadFrom(draws: map<string, seq<DrawRecord>>, texts: map<string, seq<Call>>) {
    forall r :: if r in texts && Legal(texts[r], false) then r in draws && AreDraws(texts[r], draws[r]) else r !in draws
  }

  lemma ReadDrawsAreDistinct(src: Source, texts: map<string, seq<Call>>)
    requires ReadFrom(src.draws, texts)
    ensures DrawsDistinct(src)
  {
    forall r | r in src.draws
      ensures forall i, j :: 0 <= i < j < |src.draws[r]| ==> src.draws[r][i].event != src.draws[r][j].event
    {
      var draws, places := src.draws[r], DrawPlaces(texts[r], |texts[r]|);
      forall k | 0 <= k < |draws| ensures places[k] < |texts[r]| && DrawOk(texts[r], places[k], draws[k]) {
        assert IsDraw(texts[r], places[k], draws[k]);
      }
      DrawEventsDistinct(texts[r], false, draws);
    }
  }

  /** One recording after the other; the ones that cannot be read are reported and have no draws. */
  method ReadRecordings(texts: map<string, seq<Call>>) returns (draws: map<string, seq<DrawRecord>>, unreadable: set<string>)
    ensures ReadFrom(draws, texts)
    ensures forall r :: r in unreadable <==> r in texts && !Legal(texts[r], false)
  {
    draws, unreadable := map[], {};
    var todo := texts.Keys;
    while todo != {}
      invariant todo <= texts.Keys && draws.Keys !! todo
      invariant forall r :: r in draws <==> r in texts && r !in todo && Legal(texts[r], false)
      invariant forall r :: r in draws ==> AreDraws(texts[r], draws[r])
      invariant forall r :: r in unreadable <==> r in texts && r !in todo && !Legal(texts[r], false)
      decreases todo
    {
      hide Legal, AreDraws;
      var name :| name in todo;
      todo := todo - {name};
      var read := ReadOne(texts[name]);
      if read.Some? { draws := draws[name := read.value]; } else { unreadable := unreadable + {name}; }
    }
  }

  method ReadOne(calls: seq<Call>) returns (draws: Option<seq<DrawRecord>>)
    ensures draws.Some? <==> Legal(calls, false)
    ensures draws.Some? ==> AreDraws(calls, draws.value)
  {
    draws := RecordingDraws(calls, false);
    if draws.Some? {
      forall k | 0 <= k < |draws.value| ensures IsDraw(calls, DrawPlaces(calls, |calls|)[k], draws.value[k]) {
        var place := DrawPlaces(calls, |calls|)[k];
        assert DrawOk(calls, place, draws.value[k]);
      }
    }
  }

  /** The execution is a draw of the named recording's own commands. */
  ghost predicate Drawn(texts: map<string, seq<Call>>, e: Execution) {
    var r := e.selection.recording;
    r in texts && Legal(texts[r], false) && exists place: nat :: IsDraw(texts[r], place, e.draw)
  }

  lemma ExecutionIsDrawn(src: Source, texts: map<string, seq<Call>>, frame: seq<FrameCall>, i: nat)
    requires ReadFrom(src.draws, texts) && AllSlots(frame, Slots(frame, |frame|))
    requires i < |Executions(src, frame, Slots(frame, |frame|), |Slots(frame, |frame|)|)|
    ensures Drawn(texts, Executions(src, frame, Slots(frame, |frame|), |Slots(frame, |frame|)|)[i])
  {
    hide Legal, DrawOk;
    var s, d, at := ExecutionsUseLatest(src, frame, i);
    var e := Executions(src, frame, Slots(frame, |frame|), |Slots(frame, |frame|)|)[i];
    var r := e.selection.recording;
    assert AreDraws(texts[r], src.draws[r]);
    assert IsDraw(texts[r], DrawPlaces(texts[r], |texts[r]|)[d], e.draw);
  }

  /** Main result: the executions are those of the frame over the draws that the recordings' own commands give, and
      their selection keys are unique. */
  method Inspect(texts: map<string, seq<Call>>, recordings: map<string, Recording>, primary: map<string, bool>,
                 frame: seq<FrameCall>)
    returns (executions: seq<Execution>, refused: bool, unreadable: set<string>, unsubmitted: set<string>, ghost src: Source)
    requires recordings.Keys == texts.Keys
    ensures src.recordings == recordings && src.primary == primary && ReadFrom(src.draws, texts)
    ensures forall r :: r in unreadable <==> r in texts && !Legal(texts[r], false)
    ensures refused <==> !LegalFrame(src, frame)
    ensures refused ==> executions == []
    ensures !refused ==> executions == Executions(src, frame, Slots(frame, |frame|), |Slots(frame, |frame|)|)
    ensures forall i :: 0 <= i < |executions| ==> Drawn(texts, executions[i])
    ensures forall i, j :: 0 <= i < j < |executions| ==> executions[i].selection != executions[j].selection
  {
    hide Legal, AreDraws, LegalFrame, Drawn, Executions, DrawsDistinct;
    var draws;
    draws, unreadable := ReadRecordings(texts);
    var source := Source(recordings, draws, primary);
    src := source;
    executions, refused, unsubmitted := InspectDrawExecutions(source, frame);
    if !refused {
      LegalSlots(src, frame);
      ReadDrawsAreDistinct(src, texts);
      forall i | 0 <= i < |executions| ensures Drawn(texts, executions[i]) { ExecutionIsDrawn(src, texts, frame, i); }
      forall i, j | 0 <= i < j < |executions| ensures executions[i].selection != executions[j].selection {
        if executions[i].selection == executions[j].selection { SelectionsUnique(src, frame, i, j); }
      }
    }
  }

  lemma LegalSlots(src: Source, frame: seq<FrameCall>)
    requires LegalFrame(src, frame)
    ensures AllSlots(frame, Slots(frame, |frame|))
  {
  }
}
