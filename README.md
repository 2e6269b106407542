# Muon momentum corrections: the event loop of `applyCorrections`

This project models the pass that applies the Rochester muon momentum
corrections to a dataset of collision events. The pass reads the entries of an
input tree. Each entry has `nMuon` and the per-muon branches `Muon_pt`,
`Muon_eta`, `Muon_phi`, `Muon_mass` and `Muon_charge`. The pass writes a clone
of that tree with extra branches:

- the corrected per-muon branches `Muon_pt_cor`, `Muon_eta_cor`, `Muon_phi_cor`
  and `Muon_mass_cor`;
- the scalars `Dimuon_mass`, `Dimuon_mass_cor`, `Muon_eta_pos` and `Muon_eta_neg`.

Two flags are fixed for the whole run:

- `correctAll` chooses the mode. Bulk mode corrects every muon of every entry
  that has one. Selection mode keeps only entries with exactly two muons of
  different charge and also fills the dimuon scalars.
- `isData` chooses the correction variant. Data uses `momcor_data` with
  `runopt = 0`. Simulation uses `momcor_mc` with `ntrk = 0`. Both use
  `qter = 1`.

Files:

- `muons.dfy` (module `Muons`): the input entry (`Event`), the well-formedness
  of an entry, the run flags (`Config`), the constants `MaxMuon = 1000`,
  `Ntrk`, `Runopt` and `Qter`, and the external physics code as opaque
  functions in a `Physics` value. These are the calibration's two correction
  variants and the invariant mass of two four-vectors (`computeInvariantMass`).
- `processing.dfy` (module `Processing`): the specification of one run.
  `ProcessEvent` is one pass of the loop and `Process` is the whole run, in
  entry order. `Kept` is an independent description of which entries reach
  the output (the filter by `Emits`). Lemmas relate these and state what every
  output record holds.
- `analysis.dfy` (module `Analysis`): the imperative loop, with its four
  fixed-size correction buffers of 1000 slots, the inner loop that overwrites
  them, and an output sequence that grows by one record at each `Fill`.
  `ApplyCorrections` is proved to produce exactly `Process` of the entries
  it reads.

The input tree is a `seq<Event>`, and `GetEntry(k)` is reading `events[k]`.
The loop bound is `GetEntries()` narrowed to a 32-bit `Int_t`. It is modelled
as written, so a tree with 2^31 entries or more is read only up to that
narrowed count, and not at all when the count comes out negative.
The output tree is a `seq<OutRecord>`, and `Fill` appends the record that the
branches point at. That record holds the input entry unchanged, the first
`nMuon` slots of each corrected buffer and, in selection mode only, the four
dimuon scalars. `Float_t` is modelled by `real`. The loop does no arithmetic
on these values: it passes them to the external functions and copies what they
return. Storing the `Double_t` results of `Pt()`, `Eta()`, `Phi()` and `M()`
into the `Float_t` buffers rounds them to single precision. That rounding is
folded into the opaque `momcorData` and `momcorMc`, whose results stand for
the rounded values that `Fill` and the corrected dimuon mass read.

The choice of `Muon_eta_pos` and `Muon_eta_neg` looks only at the sign of the
first muon's charge. `EtaPolarity` shows that this picks the eta of the
positive and of the negative muon whenever charges are +1 or -1, as muon
charges are. The rule is not checked against other charge values, which muons
do not have.

## Model

| member | source | states |
|---|---|---|
| `Analysis.ApplyCorrections` | RochesterCorrections/Test/Analysis.C:15-162 | With the buffers allocated at capacity 1000, the output tree is exactly `Process` of the entries the loop reads: the first `EntriesRead` entries, as bounded by the `Int_t` entry count. With fewer than 2^31 entries this is `Process` of the whole input: the same records in the same order. |
| `Analysis.ProcessEntry` | RochesterCorrections/Test/Analysis.C:81-150 | One loop pass extends the output tree by exactly the record `ProcessEvent` gives for the entry, or by nothing. An entry the mode skips leaves all four buffers unchanged. An entry it keeps has slot `i < nMuon` set to the correction of muon `i`. Slots at or above `nMuon` are never written. |
| `Muons.EntryCountAsInt32` | RochesterCorrections/Test/Analysis.C:76 | The `(Int_t)` cast of the entry count is a 32-bit two's-complement value, congruent to the count modulo 2^32 and never larger than it. |
| `Muons.EntriesRead` | RochesterCorrections/Test/Analysis.C:76-78 | The loop reads no more entries than the tree has. |
| `Muons.EveryEntryReadBelowLimit` | RochesterCorrections/Test/Analysis.C:76-78 | With fewer than 2^31 entries, the loop reads every entry. |
| `Muons.NoEntryReadAtWrap` | RochesterCorrections/Test/Analysis.C:76-78 | With 2^31 to 2^32 - 1 entries, the narrowed count is negative and the loop reads no entry. |
| `Analysis.CorrectMuons` | RochesterCorrections/Test/Analysis.C:84-100 | After the loop over the muons of an entry (the same loop appears again at lines 124-141), slot `i < nMuon` of the four buffers holds the correction of muon `i` with its own charge. Slots at or above `nMuon` are left as they were. |
| `Processing.Process` | RochesterCorrections/Test/Analysis.C:76-151 | Definition: the output tree after the loop has read the given entries. It is the output for all entries but the last, followed by the last entry's record if it has one. |
| `Processing.CorrectedMuon` | RochesterCorrections/Test/Analysis.C:69-100 | Definition: the corrected four-vector of muon `i` with its own charge. It is `momcor_data` with `runopt` and `qter` on data, and `momcor_mc` with `ntrk` and `qter` otherwise. The same dispatch appears at lines 126-140. |
| `Processing.Emits` | RochesterCorrections/Test/Analysis.C:81-109 | Definition: the guards that let an entry through. In bulk mode the entry needs `nMuon > 0` (line 82). In selection mode it needs `nMuon == 2` and `Muon_charge[0] != Muon_charge[1]` (lines 107-109). |
| `Processing.Filled` | RochesterCorrections/Test/Analysis.C:47-50 | The record `Fill` writes (lines 103 and 146) carries the entry and the given scalars unchanged. Each corrected branch has exactly `nMuon` values, as the `[nMuon]` leaf counts declare. |
| `Processing.ProcessEvent` | RochesterCorrections/Test/Analysis.C:81-150 | An entry yields a record iff `Emits` holds for the run's mode. The record carries the input entry unchanged. |
| `Processing.Kept` | RochesterCorrections/Test/Analysis.C:81-109 | The kept entries are no more than the input entries. An entry is among them iff it is an input entry and the mode lets it through (both directions). |
| `Processing.ProcessIsFilteredImage` | RochesterCorrections/Test/Analysis.C:76-151 | The output has one record per kept entry, in input order. Record `j` is the one built from kept entry `j`. |
| `Processing.OutputNoLongerThanInput` | RochesterCorrections/Test/Analysis.C:76-151 | The output never has more records than the input has entries. |
| `Processing.RecordOrigin` | RochesterCorrections/Test/Analysis.C:39-146 | Every output record comes from an input entry that the mode lets through. It is the record built from that entry alone, so the cloned input branches are copied unchanged. |
| `Processing.EntryEmitsIff` | RochesterCorrections/Test/Analysis.C:81-150 | An input entry has a record in the output iff the mode lets it through. |
| `Processing.SelectionModeEmitsIff` | RochesterCorrections/Test/Analysis.C:105-149 | In selection mode, an entry has a record iff `nMuon == 2` and `Muon_charge[0] != Muon_charge[1]`. Entries with 0, 1 or 3 or more muons, or with equal charges, have none. |
| `Processing.BulkModeEmitsIff` | RochesterCorrections/Test/Analysis.C:81-104 | In bulk mode, an entry has a record iff `nMuon > 0`. |
| `Processing.BulkModeKeepsEveryNonEmptyEntry` | RochesterCorrections/Test/Analysis.C:81-104 | In bulk mode, when every entry has a muon, the output has exactly one record per entry, in entry order. |
| `Processing.CorrectionDispatch` | RochesterCorrections/Test/Analysis.C:69-100 | In every record, each corrected branch holds exactly `nMuon` values. Slot `i` is the correction of input muon `i` with charge `Muon_charge[i]`: `momcor_data` with runopt 0 and qter 1 when `isData`, otherwise `momcor_mc` with ntrk 0 and qter 1. |
| `Processing.BulkModeRecord` | RochesterCorrections/Test/Analysis.C:81-104 | A bulk-mode record comes from an entry with at least one muon and carries no dimuon scalars, because bulk mode never assigns them. |
| `Processing.SelectionModeRecord` | RochesterCorrections/Test/Analysis.C:107-146 | A selection-mode record has two muons of different charge and two corrected slots. `Dimuon_mass` is the invariant mass of the two uncorrected muons. `Dimuon_mass_cor` is that of corrected slots 0 and 1. `Muon_eta_pos` and `Muon_eta_neg` are the uncorrected etas (muon 0, muon 1) when `Muon_charge[0] > 0`, and (muon 1, muon 0) otherwise. |
| `Processing.EtaPolarity` | RochesterCorrections/Test/Analysis.C:115-121 | With unit charges, `Muon_eta_pos` is the eta of the positive muon and `Muon_eta_neg` that of the negative muon. |
| `Processing.SelectionScenario` | RochesterCorrections/Test/Analysis.C:105-149 | Take three entries in selection mode: one with no muon, one with two muons of charges +1 and -1, and one with three muons. They give exactly one record, from the middle entry. Its dimuon mass is the invariant mass of that entry's muons, and its etas are in input order. |

## Left out

- ROOT file and tree I/O is not modelled: opening the input (including remote `root://` locations), `SetBranchAddress`, `CloneTree(0)`, `Branch`, `GetEntry`, `Write` and `delete`. The input is a sequence of entries and the output a sequence of records. Branches other than the muon ones are not modelled. They are part of the cloned entry and would be copied like it.
- The unchecked null results of `TFile::Open` and `Get` are not modelled, nor is the constant return value 0 of `applyCorrections`.
- The calibration class `rochcor2012` is not part of this model. Its `momcor_data` and `momcor_mc` are opaque functions of the four-vector, the charge, the run option or track count, and `qter`. They are treated as pure. If that class changed `qter` through a reference, later calls would see the changed value; that behaviour is not captured.
- `computeInvariantMass` and the `PtEtaPhiMVector` sum are an opaque function `invMass`. No property of it (symmetry, closed-form values) is assumed or proved, because it is floating-point work in a library.
- The `TLorentzVector` round trip (`SetPtEtaPhiM`, then `Pt()`, `Eta()`, `Phi()`, `M()`) is folded into the opaque correction functions. So is the rounding of its `Double_t` results when they are stored into the `Float_t` buffers. `Float_t` is modelled by `real` with no rounding of its own, because the loop does no arithmetic.
- In bulk mode the scalar branches `Dimuon_mass`, `Dimuon_mass_cor`, `Muon_eta_pos` and `Muon_eta_neg` are filled with values that were never assigned. The model leaves them unspecified (`dimuon == None`).
- The buffers are plain fixed-size arrays. An entry with more than 1000 muons would overflow them, and the source does not check for it. The model requires `nMuon <= 1000` of every entry instead of modelling an error path.
- `Analysis::main` is not modelled. It is a driver with hard-coded dataset locations. The console logging is not modelled either.
- Running the pass twice on the same input gives the same output because `Process` is a function. No separate lemma states this.
