/** What one run of the correction pass produces, as functions of the input
    entries: the per-entry rule (`ProcessEvent`), the whole run (`Process`),
    an independent description of which entries are kept (`Kept`), and the
    properties of the output tree proved from them. */
module Processing {
  import opened Muons

  /** The four scalar branches filled only in selection mode. */
  datatype Dimuon = Dimuon(mass: real, massCor: real, etaPos: real, etaNeg: real)

  /** One filled entry of the output tree: the cloned input branches, the
      corrected per-muon branches (as many values as `nMuon`) and, in
      selection mode, the dimuon scalars. In bulk mode the scalar branches are
      never assigned, so `dimuon` is `None` there: their contents are left
      unspecified. */
  datatype OutRecord = OutRecord(
    event: Event,
    ptCor: seq<real>,
    etaCor: seq<real>,
    phiCor: seq<real>,
    massCor: seq<real>,
    dimuon: Option<Dimuon>)

  predicate AllWellFormed(events: seq<Event>)
  {
    forall k :: 0 <= k < |events| ==> WellFormed(events[k])
  }

  /** The corrected four-vector of muon `i`: the data variant with `runopt` on
      data, the simulation variant with `ntrk` otherwise, `qter` for both. */
  function CorrectedMuon(isData: bool, ph: Physics, e: Event, i: nat): FourVec
    requires WellFormed(e) && i < e.nMuon
  {
    if isData then ph.momcorData(Muon(e, i), e.charge[i], Runopt, Qter)
    else ph.momcorMc(Muon(e, i), e.charge[i], Ntrk, Qter)
  }

  /** Slot `i` of the corrected branches of a record, as a four-vector. */
  function CorrectedSlot(r: OutRecord, i: nat): FourVec
    requires i < |r.ptCor| && i < |r.etaCor| && i < |r.phiCor| && i < |r.massCor|
  {
    FourVec(r.ptCor[i], r.etaCor[i], r.phiCor[i], r.massCor[i])
  }

  /** Which entries reach the output tree: in bulk mode every entry with a
      muon, in selection mode exactly the entries with two muons of
      different charge. */
  predicate Emits(cfg: Config, e: Event)
    requires WellFormed(e)
  {
    if cfg.correctAll then e.nMuon > 0
    else e.nMuon == 2 && e.charge[0] != e.charge[1]
  }

  /** The record `Fill` writes once the correction loop has run over entry `e`. */
  function Filled(isData: bool, ph: Physics, e: Event, d: Option<Dimuon>): (r: OutRecord)
    requires WellFormed(e)
    ensures r.event == e && r.dimuon == d
    ensures |r.ptCor| == |r.etaCor| == |r.phiCor| == |r.massCor| == e.nMuon
  {
    OutRecord(
      e,
      seq(e.nMuon, i requires 0 <= i < e.nMuon => CorrectedMuon(isData, ph, e, i).pt),
      seq(e.nMuon, i requires 0 <= i < e.nMuon => CorrectedMuon(isData, ph, e, i).eta),
      seq(e.nMuon, i requires 0 <= i < e.nMuon => CorrectedMuon(isData, ph, e, i).phi),
      seq(e.nMuon, i requires 0 <= i < e.nMuon => CorrectedMuon(isData, ph, e, i).mass),
      d)
  }

  /** One pass of the event loop: the record the entry adds to the output
      tree, if any. */
  function ProcessEvent(cfg: Config, ph: Physics, e: Event): (r: Option<OutRecord>)
    requires WellFormed(e)
    ensures r.Some? <==> Emits(cfg, e)
    ensures r.Some? ==> r.value.event == e
  {
    if cfg.correctAll then
      if e.nMuon > 0 then Some(Filled(cfg.isData, ph, e, None)) else None
    else if e.nMuon == 2 && e.charge[0] != e.charge[1] then
      var dimuonMass := ph.invMass(Muon(e, 0), Muon(e, 1));
      var (etaPos, etaNeg) := if e.charge[0] > 0 then (e.eta[0], e.eta[1]) else (e.eta[1], e.eta[0]);
      var dimuonMassCor := ph.invMass(CorrectedMuon(cfg.isData, ph, e, 0), CorrectedMuon(cfg.isData, ph, e, 1));
      Some(Filled(cfg.isData, ph, e, Some(Dimuon(dimuonMass, dimuonMassCor, etaPos, etaNeg))))
    else
      None
  }

  function OptionToSeq(o: Option<OutRecord>): seq<OutRecord>
  {
    match o
    case None => []
    case Some(r) => [r]
  }

  /** The output tree after the loop has read all of `events`, in entry order. */
  function Process(cfg: Config, ph: Physics, events: seq<Event>): seq<OutRecord>
    requires AllWellFormed(events)
  {
    if events == [] then []
    else Process(cfg, ph, events[..|events| - 1]) + OptionToSeq(ProcessEvent(cfg, ph, events[|events| - 1]))
  }

  /** The entries that reach the output, in input order: the filter of
      `events` by `Emits`. */
  function Kept(cfg: Config, events: seq<Event>): (kept: seq<Event>)
    requires AllWellFormed(events)
    ensures |kept| <= |events|
    ensures AllWellFormed(kept)
    ensures forall x :: x in kept <==> x in events && Emits(cfg, x)
  {
    if events == [] then []
    else
      var init, last := events[..|events| - 1], events[|events| - 1];
      assert events == init + [last];
      Kept(cfg, init) + if Emits(cfg, last) then [last] else []
  }

  /** The output tree is the in-order image of the kept entries: one record
      per kept entry, each the one `ProcessEvent` builds from it. */
  lemma {:induction false} ProcessIsFilteredImage(cfg: Config, ph: Physics, events: seq<Event>)
    requires AllWellFormed(events)
    ensures |Process(cfg, ph, events)| == |Kept(cfg, events)|
    ensures forall j :: 0 <= j < |Kept(cfg, events)| ==>
      ProcessEvent(cfg, ph, Kept(cfg, events)[j]) == Some(Process(cfg, ph, events)[j])
  {
    if events != [] {
      ProcessIsFilteredImage(cfg, ph, events[..|events| - 1]);
    }
  }

  /** At most one record per input entry. */
  lemma {:induction false} OutputNoLongerThanInput(cfg: Config, ph: Physics, events: seq<Event>)
    requires AllWellFormed(events)
    ensures |Process(cfg, ph, events)| <= |events|
  {
    ProcessIsFilteredImage(cfg, ph, events);
  }

  /** Every record comes from an input entry that the mode lets through, and
      is the record built from that entry alone. */
  lemma {:induction false} RecordOrigin(cfg: Config, ph: Physics, events: seq<Event>, r: OutRecord)
    requires AllWellFormed(events) && r in Process(cfg, ph, events)
    ensures r.event in events && WellFormed(r.event)
    ensures Emits(cfg, r.event) && ProcessEvent(cfg, ph, r.event) == Some(r)
  {
    ProcessIsFilteredImage(cfg, ph, events);
    var out, kept := Process(cfg, ph, events), Kept(cfg, events);
    var j :| 0 <= j < |out| && out[j] == r;
    assert kept[j] in kept;
  }

  /** An input entry has a record in the output iff the mode lets it through. */
  lemma {:induction false} EntryEmitsIff(cfg: Config, ph: Physics, events: seq<Event>, e: Event)
    requires AllWellFormed(events) && e in events
    ensures WellFormed(e)
    ensures (exists r :: r in Process(cfg, ph, events) && r.event == e) <==> Emits(cfg, e)
  {
    var out := Process(cfg, ph, events);
    if Emits(cfg, e) {
      ProcessIsFilteredImage(cfg, ph, events);
      var kept := Kept(cfg, events);
      var j :| 0 <= j < |kept| && kept[j] == e;
      assert out[j] in out && out[j].event == e;
    } else {
      forall r | r in out ensures r.event != e {
        RecordOrigin(cfg, ph, events, r);
      }
    }
  }

  /** Selection mode keeps an entry iff it has exactly two muons of different
      charge; entries with 0, 1 or 3 and more muons, or with equal charges,
      are dropped. */
  lemma {:induction false} SelectionModeEmitsIff(cfg: Config, ph: Physics, events: seq<Event>, e: Event)
    requires !cfg.correctAll && AllWellFormed(events) && e in events
    ensures WellFormed(e)
    ensures (exists r :: r in Process(cfg, ph, events) && r.event == e)
      <==> e.nMuon == 2 && e.charge[0] != e.charge[1]
  {
    EntryEmitsIff(cfg, ph, events, e);
  }

  /** Bulk mode keeps an entry iff it has at least one muon. */
  lemma {:induction false} BulkModeEmitsIff(cfg: Config, ph: Physics, events: seq<Event>, e: Event)
    requires cfg.correctAll && AllWellFormed(events) && e in events
    ensures (exists r :: r in Process(cfg, ph, events) && r.event == e) <==> e.nMuon > 0
  {
    EntryEmitsIff(cfg, ph, events, e);
  }

  /** In bulk mode, when every entry has a muon, the output has one record
      per entry, in entry order. */
  lemma {:induction false} BulkModeKeepsEveryNonEmptyEntry(cfg: Config, ph: Physics, events: seq<Event>)
    requires cfg.correctAll && AllWellFormed(events)
    requires forall k :: 0 <= k < |events| ==> events[k].nMuon > 0
    ensures |Process(cfg, ph, events)| == |events|
    ensures forall k :: 0 <= k < |events| ==> Process(cfg, ph, events)[k].event == events[k]
  {
    if events != [] {
      BulkModeKeepsEveryNonEmptyEntry(cfg, ph, events[..|events| - 1]);
    }
  }

  /** Slot `i` of every record's corrected branches holds the correction of
      input muon `i` with its own charge, by the variant that `isData` alone
      selects, with `runopt = ntrk = 0` and `qter = 1`; the corrected branches
      hold exactly `nMuon` values. */
  lemma {:induction false} CorrectionDispatch(cfg: Config, ph: Physics, events: seq<Event>, r: OutRecord)
    requires AllWellFormed(events) && r in Process(cfg, ph, events)
    ensures WellFormed(r.event)
    ensures |r.ptCor| == |r.etaCor| == |r.phiCor| == |r.massCor| == r.event.nMuon
    ensures forall i :: 0 <= i < r.event.nMuon ==>
      CorrectedSlot(r, i) ==
        if cfg.isData then ph.momcorData(Muon(r.event, i), r.event.charge[i], 0.0, 1.0)
        else ph.momcorMc(Muon(r.event, i), r.event.charge[i], 0.0, 1.0)
  {
    RecordOrigin(cfg, ph, events, r);
  }

  /** Bulk-mode records come from entries with at least one muon and carry
      no dimuon scalars. */
  lemma {:induction false} BulkModeRecord(cfg: Config, ph: Physics, events: seq<Event>, r: OutRecord)
    requires cfg.correctAll && AllWellFormed(events) && r in Process(cfg, ph, events)
    ensures r.event.nMuon > 0 && r.dimuon == None
  {
    RecordOrigin(cfg, ph, events, r);
  }

  /** Selection-mode records: two muons of different charge, two corrected
      slots, the uncorrected dimuon mass, the dimuon mass of corrected slots 0
      and 1, and the etas chosen by the sign of the first muon's charge, both
      taken from the uncorrected etas. */
  lemma {:induction false} SelectionModeRecord(cfg: Config, ph: Physics, events: seq<Event>, r: OutRecord)
    requires !cfg.correctAll && AllWellFormed(events) && r in Process(cfg, ph, events)
    ensures WellFormed(r.event) && r.event.nMuon == 2 && r.event.charge[0] != r.event.charge[1]
    ensures |r.ptCor| == |r.etaCor| == |r.phiCor| == |r.massCor| == 2
    ensures r.dimuon.Some?
    ensures r.dimuon.value.mass == ph.invMass(Muon(r.event, 0), Muon(r.event, 1))
    ensures r.dimuon.value.massCor == ph.invMass(CorrectedSlot(r, 0), CorrectedSlot(r, 1))
    ensures (r.dimuon.value.etaPos, r.dimuon.value.etaNeg) ==
      if r.event.charge[0] > 0 then (r.event.eta[0], r.event.eta[1]) else (r.event.eta[1], r.event.eta[0])
  {
    RecordOrigin(cfg, ph, events, r);
  }

  /** With unit charges, as muons have, `etaPos` is the eta of the positive
      muon and `etaNeg` that of the negative one. */
  lemma {:induction false} EtaPolarity(cfg: Config, ph: Physics, events: seq<Event>, r: OutRecord)
    requires !cfg.correctAll && AllWellFormed(events) && r in Process(cfg, ph, events)
    requires forall i :: 0 <= i < |r.event.charge| ==> r.event.charge[i] == 1 || r.event.charge[i] == -1
    ensures WellFormed(r.event) && r.event.nMuon == 2 && r.dimuon.Some?
    ensures forall p :: 0 <= p < 2 ==>
      && (r.event.charge[p] > 0 ==> r.dimuon.value.etaPos == r.event.eta[p])
      && (r.event.charge[p] < 0 ==> r.dimuon.value.etaNeg == r.event.eta[p])
  {
    SelectionModeRecord(cfg, ph, events, r);
  }

  /** A three-entry run in selection mode: an entry without muons, a
      two-muon entry with charges +1 and -1, and a three-muon entry give
      exactly one record, from the middle entry. */
  lemma SelectionScenario(isData: bool, ph: Physics, a: Event, b: Event, c: Event)
    requires WellFormed(a) && WellFormed(b) && WellFormed(c)
    requires a.nMuon == 0 && b.nMuon == 2 && b.charge == [1, -1] && c.nMuon == 3
    ensures |Process(Config(isData, false), ph, [a, b, c])| == 1
    ensures Process(Config(isData, false), ph, [a, b, c])[0].event == b
    ensures Process(Config(isData, false), ph, [a, b, c])[0].dimuon
      == Some(Dimuon(
           ph.invMass(Muon(b, 0), Muon(b, 1)),
           ph.invMass(CorrectedMuon(isData, ph, b, 0), CorrectedMuon(isData, ph, b, 1)),
           b.eta[0],
           b.eta[1]))
  {
    var cfg := Config(isData, false);
    assert [a, b, c][..2] == [a, b] && [a, b][..1] == [a] && [a][..0] == [];
    assert Process(cfg, ph, [a]) == [];
    assert Process(cfg, ph, [a, b]) == [Filled(isData, ph, b, Process(cfg, ph, [a, b])[0].dimuon)];
  }
}
