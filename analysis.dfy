/** The event loop of `applyCorrections`: fixed-size correction buffers that
    are overwritten entry by entry, and an output tree that grows by one
    record at each `Fill`. Reading an entry is indexing `events`; `Fill` is
    appending the record its branches point at. */
module Analysis {
  import opened Muons
  import opened Processing

  /** The inner loop over the muons of one entry: slot `i` of the four
      corrected buffers receives the correction of muon `i`; the slots at and
      above `nMuon` keep what earlier entries left there. */
  method CorrectMuons(isData: bool, ph: Physics, e: Event,
                      ptCor: array<real>, etaCor: array<real>, phiCor: array<real>, massCor: array<real>)
    requires WellFormed(e)
    requires ptCor.Length == MaxMuon && etaCor.Length == MaxMuon
    requires phiCor.Length == MaxMuon && massCor.Length == MaxMuon
    requires ptCor != etaCor && ptCor != phiCor && ptCor != massCor
    requires etaCor != phiCor && etaCor != massCor && phiCor != massCor
    modifies ptCor, etaCor, phiCor, massCor
    ensures forall i :: 0 <= i < e.nMuon ==>
      FourVec(ptCor[i], etaCor[i], phiCor[i], massCor[i]) == CorrectedMuon(isData, ph, e, i)
    ensures forall j :: e.nMuon <= j < MaxMuon ==>
      && ptCor[j] == old(ptCor[j]) && etaCor[j] == old(etaCor[j])
      && phiCor[j] == old(phiCor[j]) && massCor[j] == old(massCor[j])
  {
    var i: nat := 0;
    while i < e.nMuon
      invariant i <= e.nMuon
      invariant forall k :: 0 <= k < i ==>
        FourVec(ptCor[k], etaCor[k], phiCor[k], massCor[k]) == CorrectedMuon(isData, ph, e, k)
      invariant forall j :: e.nMuon <= j < MaxMuon ==>
        && ptCor[j] == old(ptCor[j]) && etaCor[j] == old(etaCor[j])
        && phiCor[j] == old(phiCor[j]) && massCor[j] == old(massCor[j])
    {
      var mu := Muon(e, i);
      if isData {
        mu := ph.momcorData(mu, e.charge[i], Runopt, Qter);
      } else {
        mu := ph.momcorMc(mu, e.charge[i], Ntrk, Qter);
      }
      ptCor[i] := mu.pt;
      etaCor[i] := mu.eta;
      phiCor[i] := mu.phi;
      massCor[i] := mu.mass;
      i := i + 1;
    }
  }

  /** Reading one more entry extends the output by that entry's record, if any. */
  lemma {:induction false} ProcessStep(cfg: Config, ph: Physics, events: seq<Event>, k: nat)
    requires AllWellFormed(events) && k < |events|
    ensures Process(cfg, ph, events[..k + 1])
      == Process(cfg, ph, events[..k]) + OptionToSeq(ProcessEvent(cfg, ph, events[k]))
  {
    assert events[..k + 1][..k] == events[..k];
  }

  /** Corrected buffers whose first `nMuon` slots hold the corrections of the
      entry's muons make `Fill` write the record the specification expects. */
  lemma FilledFromBuffers(isData: bool, ph: Physics, e: Event,
                          pts: seq<real>, etas: seq<real>, phis: seq<real>, masses: seq<real>,
                          d: Option<Dimuon>)
    requires WellFormed(e)
    requires |pts| == |etas| == |phis| == |masses| == e.nMuon
    requires forall i :: 0 <= i < e.nMuon ==>
      FourVec(pts[i], etas[i], phis[i], masses[i]) == CorrectedMuon(isData, ph, e, i)
    ensures OutRecord(e, pts, etas, phis, masses, d) == Filled(isData, ph, e, d)
  {
  }

  /** One pass of the event loop over the entry just read: correct its muons
      into the buffers when the mode lets it through, and `Fill` the output
      tree with the resulting record. */
  method ProcessEntry(cfg: Config, ph: Physics, e: Event, tree: seq<OutRecord>,
                      ptCor: array<real>, etaCor: array<real>, phiCor: array<real>, massCor: array<real>)
    returns (filled: seq<OutRecord>)
    requires WellFormed(e)
    requires ptCor.Length == MaxMuon && etaCor.Length == MaxMuon
    requires phiCor.Length == MaxMuon && massCor.Length == MaxMuon
    requires ptCor != etaCor && ptCor != phiCor && ptCor != massCor
    requires etaCor != phiCor && etaCor != massCor && phiCor != massCor
    modifies ptCor, etaCor, phiCor, massCor
    ensures filled == tree + OptionToSeq(ProcessEvent(cfg, ph, e))
    ensures !Emits(cfg, e) ==> unchanged(ptCor, etaCor, phiCor, massCor)
    ensures Emits(cfg, e) ==> forall i :: 0 <= i < e.nMuon ==>
      FourVec(ptCor[i], etaCor[i], phiCor[i], massCor[i]) == CorrectedMuon(cfg.isData, ph, e, i)
    ensures forall j :: e.nMuon <= j < MaxMuon ==>
      && ptCor[j] == old(ptCor[j]) && etaCor[j] == old(etaCor[j])
      && phiCor[j] == old(phiCor[j]) && massCor[j] == old(massCor[j])
  {
    filled := tree;
    if cfg.correctAll {
      if e.nMuon > 0 {
        CorrectMuons(cfg.isData, ph, e, ptCor, etaCor, phiCor, massCor);
        var n := e.nMuon;
        FilledFromBuffers(cfg.isData, ph, e, ptCor[..n], etaCor[..n], phiCor[..n], massCor[..n], None);
        filled := filled + [OutRecord(e, ptCor[..n], etaCor[..n], phiCor[..n], massCor[..n], None)];
      }
    } else {
      if e.nMuon == 2 {
        if e.charge[0] != e.charge[1] {
          var dimuonMass := ph.invMass(Muon(e, 0), Muon(e, 1));
          var etaPos, etaNeg;
          if e.charge[0] > 0 {
            etaPos, etaNeg := e.eta[0], e.eta[1];
          } else {
            etaPos, etaNeg := e.eta[1], e.eta[0];
          }
          CorrectMuons(cfg.isData, ph, e, ptCor, etaCor, phiCor, massCor);
          var dimuonMassCor := ph.invMass(
            FourVec(ptCor[0], etaCor[0], phiCor[0], massCor[0]),
            FourVec(ptCor[1], etaCor[1], phiCor[1], massCor[1]));
          var d := Dimuon(dimuonMass, dimuonMassCor, etaPos, etaNeg);
          FilledFromBuffers(cfg.isData, ph, e, ptCor[..2], etaCor[..2], phiCor[..2], massCor[..2], Some(d));
          filled := filled + [OutRecord(e, ptCor[..2], etaCor[..2], phiCor[..2], massCor[..2], Some(d))];
        }
      }
    }
  }

  /** One run over the entries of the input tree; `tree` is the output tree
      in the order its records were filled. The loop runs up to the entry
      count narrowed to `Int_t`, so it reads every entry exactly when there
      are fewer than 2^31 of them. */
  method ApplyCorrections(cfg: Config, ph: Physics, events: seq<Event>) returns (tree: seq<OutRecord>)
    requires AllWellFormed(events)
    ensures tree == Process(cfg, ph, events[..EntriesRead(|events|)])
    ensures |events| < 0x8000_0000 ==> tree == Process(cfg, ph, events)
  {
    var ptCor := new real[MaxMuon];
    var etaCor := new real[MaxMuon];
    var phiCor := new real[MaxMuon];
    var massCor := new real[MaxMuon];
    var nEntries := EntryCountAsInt32(|events|);
    tree := [];
    var k := 0;
    while k < nEntries
      invariant 0 <= k <= EntriesRead(|events|)
      invariant tree == Process(cfg, ph, events[..k])
    {
      ProcessStep(cfg, ph, events, k);
      tree := ProcessEntry(cfg, ph, events[k], tree, ptCor, etaCor, phiCor, massCor);
      k := k + 1;
    }
    if |events| < 0x8000_0000 {
      EveryEntryReadBelowLimit(|events|);
      assert events[..k] == events;
    }
  }
}
