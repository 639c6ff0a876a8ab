# System76 / Dasharo EC firmware core, modelled in Dafny

This project models five parts of the embedded-controller firmware that System76
laptops run (the Dasharo fork of the System76 EC), and proves properties of them.

- **Keyboard scanner** (`src/board/system76/common/kbscan.c`). The scanner keeps
  the debounced matrix, a ghost flag per row, the layer each key was pressed on,
  one global 15 ms debounce window and the typematic-repeat state. One call of
  `kbscan_event` takes a pass over the rows. The model has three layers:
  - `KeyPress` holds the dispatch of one key transition (`kbscan_press`,
    `hardware_hotkey`).
  - `Ghost` holds ghost-key detection.
  - `Scan` holds the pass as functions. `KbScan.Scanner` is the imperative
    version over arrays, proved step by step to match `Scan`.
- **SMFI host mailbox** (`src/board/system76/common/smfi.c`). The host writes a
  command code into a shared 256-byte region. `smfi_event` runs the handler,
  writes the result byte and clears the command byte. `smfi_debug` appends to a
  second 256-byte region used as a ring, with its tail in slot 0.
  - `Smfi` gives each handler as a function on the regions.
  - `SmfiRam.Mailbox` holds the two regions as arrays that its methods update
    in place. Each method is proved to leave the state the matching function
    gives.
- **eSPI virtual wires** (`src/ec/ite/espi.c`): `vw_get` decodes a wire from its
  index byte, and `vw_set` rewrites that byte.
- **CPU fan over PECI** (`src/board/system76/common/peci.c`). This covers the
  fan-curve setter, the availability gate, the GetTemp reading, the
  WrPkgConfig/RdPkgConfig request bytes and replies, and the duty selection.
- **dGPU** (`src/board/system76/common/dgpu.c`): the D-notify power-limit level,
  the fan-curve setter, the duty selection, and the board without a dGPU.

The EC is an 8051 compiled with SDCC, so C's `int` is 16 bits. Where that changes
a result it is written out: the fan-curve percentage conversion (`Smfi.PercentToDuty`),
the GetTemp byte join, and the 16-bit `supply_watts`. Clock arithmetic is
`bv32` and wraps like `uint32_t`. Bytes that are only masked and shifted are
`bv8`. Bytes that take part in arithmetic are the `uint8` newtype.

The scanner's I/O is passed in as data:

- the time, read once per pass;
- the raw rows of the matrix, one snapshot per pass;
- the keymap;
- the lid, power and ACPI state;
- whether `pmc_sci` accepts an SCI.

Every call into another part of the firmware is recorded as an event, in order:
`kbc_scancode`, `pmc_sci`, `pmc_swi`, GPIO toggles and keyboard-LED calls.

The SMFI handlers see their collaborators through a `Services` value:

- `board()` and `version()`;
- `keymap_get/set` and `keymap_save_config`;
- `fan_points_are_valid`;
- `options_get/set`;
- the scanner's matrix.

They record the effects they cause outside the regions as a log. The command
codes of `common/command.h` are a decoding function in `Smfi.Config`.

Where the code and its documentation disagree, the model follows the code
(with one exception, the fan-curve command's answer, listed under
"## Findings" and "## Left out"):

- A press of an SCI key whose SCI the host refuses returns before
  `hardware_hotkey`, so the hotkey action does not run.
- The debounce window closes on `(now - debounce_time) >= 15` with wrapping
  subtraction. There is no separate reset for a clock that went backwards.
- The repeat branch runs for any unchanged, non-zero row, whichever row holds
  the repeat key.
- The keyboard-backlight brightness keys (`K_KBD_DOWN`, `K_KBD_UP`) repeat,
  because they are not in `key_should_repeat`'s exclusion list.
- A row whose ghost flag clears still runs its column loop, which the newly
  opened debounce window then reverts bit by bit.

## Model

| member | source | states |
|---|---|---|
| Bits.SetBit | src/board/system76/common/kbscan.c:423-430 | after `new \|= BIT(j)` or `new &= ~BIT(j)`, bit `j` is the requested value |
| Bits.SetBitOther | src/board/system76/common/kbscan.c:423-430 | resetting bit `j` leaves every other bit of the row unchanged |
| Bits.BitOfAnd | src/board/system76/common/kbscan.c:160 | a bit of `a & b` is set exactly when it is set in both |
| Bits.BitsDetermineByte | src/board/system76/common/kbscan.c:370-432 | two row bytes that agree on all eight bits are equal |
| Bits.NoDiffBitsSame | src/board/system76/common/kbscan.c:370-432 | rows that differ in no bit are the same row |
| Bits.DiffBitsRevert | src/board/system76/common/kbscan.c:423-430 | putting bit `j` back to its last value leaves no difference at `j` |
| Bits.DiffBitsSetAbove | src/board/system76/common/kbscan.c:370-432 | changing bit `j` does not change how the lower bits compare |
| Bits.Lowest | src/board/system76/common/kbscan.c:131-133 | the lowest set bit of a non-zero byte is set, and no lower bit is |
| Bits.Le16RoundTrip | src/board/system76/common/peci.c:231-232 | the two little-endian bytes of a 16-bit parameter give it back |
| Bits.FromLe16RoundTrip | src/board/system76/common/peci.c:231-232 | joining two bytes and splitting again yields the same bytes |
| Bits.Le32RoundTrip | src/board/system76/common/peci.c:234-237 | the four little-endian bytes of a 32-bit value give it back |
| Bits.FromLe32RoundTrip | src/board/system76/common/peci.c:469-471 | four reply bytes joined and split again are the same four bytes |
| Espi.Wire | src/ec/ite/espi.c:8-41 | `VIRTUAL_WIRE(i, s)` has data bit `s` and valid bit `s+4`, one bit each, disjoint |
| Espi.VwSet | src/ec/ite/espi.c:58-77 | the read-modify-write leaves the index register at the value `vw_set` computes |
| Espi.VwGetCases | src/ec/ite/espi.c:43-54 | INVALID exactly when no valid bit is set; then HIGH iff a data bit is set, else LOW |
| Espi.VwSetLow | src/ec/ite/espi.c:64-67 | writing LOW clears the data bits and sets the valid bits |
| Espi.VwSetHigh | src/ec/ite/espi.c:68-71 | writing HIGH sets both the data and the valid bits |
| Espi.VwSetInvalid | src/ec/ite/espi.c:72-74 | any other state clears the valid bits and nothing else |
| Espi.VwSetFrame | src/ec/ite/espi.c:62-76 | no bit outside `data_mask \| valid_mask` changes |
| Espi.VwSetIdempotent | src/ec/ite/espi.c:58-77 | writing the same state twice equals writing it once |
| Espi.VwRoundTrip | src/ec/ite/espi.c:43-77 | with well-formed masks, `vw_get` after `vw_set(s)` reads `s` back |
| Espi.VwSetOtherWire | src/ec/ite/espi.c:43-77 | writing one wire does not change what another wire of the same index reads |
| Keymap.RepeatingKeys | src/board/system76/common/kbscan.c:313-331 | every plain scancode repeats, so do KBD_DOWN/KBD_UP; Pause, Touchpad and Fn-Lock do not |
| Keymap.NoNormalHotkey | src/board/system76/common/kbscan.c:313-331 | no key in the exclusion list is a plain scancode |
| Ghost.MoreThanOneIffTwoBits | src/board/system76/common/kbscan.c:131-133 | `x & (x - 1)` is non-zero exactly when at least two bits of `x` are set |
| Ghost.RealKeysUpToBit | src/board/system76/common/kbscan.c:135-147 | after the first `n` columns, bit `c` of the result is set iff `c < n` and `c` is pressed with a layer-0 key |
| Ghost.RealKeysBit | src/board/system76/common/kbscan.c:135-147 | bit `c` of the real keys is set iff column `c` is pressed and has a layer-0 key, so the result is a subset of the row |
| Ghost.GetRealKeys | src/board/system76/common/kbscan.c:135-147 | the column loop accumulates exactly the real keys |
| Ghost.HasGhostInRow | src/board/system76/common/kbscan.c:123-129 | false under KM_NKEY, otherwise exactly the ghost condition |
| Ghost.GhostedIffSharedColumns | src/board/system76/common/kbscan.c:149-166 | a row is ghosted iff another row's real keys share two columns with its real keys |
| Ghost.GhostedHasSharedPair | src/board/system76/common/kbscan.c:157-163 | a ghosted row has a witness: another row and two shared real columns |
| Ghost.SharedPairGhosts | src/board/system76/common/kbscan.c:157-163 | two real columns shared with another row make the row ghosted |
| Ghost.FewRealKeysNotGhosted | src/board/system76/common/kbscan.c:152-155 | a row with fewer than two real keys is never ghosted |
| KeyPress.PressRejectedIff | src/board/system76/common/kbscan.c:199-311 | a transition is rejected iff it is an Fn key with no layer slot, or a press of an SCI, SCI_EXTRA or touchpad key whose SCI the host refuses |
| KeyPress.FnLockToggles | src/board/system76/common/kbscan.c:205-209 | only a Fn-Lock press toggles `keymap_fnlock`, and it does nothing else but the wake-up |
| KeyPress.FnSelectsLayer | src/board/system76/common/kbscan.c:217-227 | only Fn keys change the layer slot; with a slot, layer 1 on press and 0 on release |
| KeyPress.SciHotkeyGated | src/board/system76/common/kbscan.c:278-308 | an SCI or SCI_EXTRA press is accepted iff there is no ACPI OS or the SCI is accepted; a refused one runs no hotkey |
| KeyPress.SciReleaseIsNoOp | src/board/system76/common/kbscan.c:278-308 | releasing an SCI or SCI_EXTRA key is accepted and does nothing |
| KeyPress.NoScancodesWhenDisabled | src/board/system76/common/kbscan.c:212-267 | with `kbscan_enabled` clear, no transition sends a scancode |
| KeyPress.WakeComesFirst | src/board/system76/common/kbscan.c:200-203 | the wake-up comes first, and the host is woken iff a press happens with the lid open in S3 |
| KeyPress.DispatchNeverWakes | src/board/system76/common/kbscan.c:211-309 | the key-type dispatch never wakes the host |
| KeyPress.HotkeyNeverWakes | src/board/system76/common/kbscan.c:169-197 | no hotkey action wakes the host |
| KeyPress.ComboNeverWakes | src/board/system76/common/kbscan.c:228-277 | no combination key wakes the host |
| KeyPress.PrintScreenSequence | src/board/system76/common/kbscan.c:241-251 | print-screen sends E0 12, E0 7C down on press and E0 7C, E0 12 up on release |
| KeyPress.PauseSequence | src/board/system76/common/kbscan.c:252-263 | pause sends its six codes on press and nothing on release |
| KeyPress.HotkeyActions | src/board/system76/common/kbscan.c:169-197 | each hotkey code has exactly its one action, and the fan toggle flips `fan_max` |
| Scan.Reads | src/board/system76/common/kbscan.c:66-70 | with the lid closed every row reads 0; otherwise the raw row |
| Scan.CellInRange | src/board/system76/common/kbscan.c:336 | cell (i, j) lies inside the `KM_OUT x KM_IN` layer cache |
| Scan.Accept | src/board/system76/common/kbscan.c:383-397 | opening the window changes neither the matrix nor the ghost flags |
| Scan.ColStep | src/board/system76/common/kbscan.c:370-432 | a column step keeps the matrix, the ghost flags and the cache size |
| Scan.Deliver | src/board/system76/common/kbscan.c:398-420 | a key delivery leaves the matrix, the ghost flags and the layer cache alone |
| Scan.ColFoldKeeps | src/board/system76/common/kbscan.c:370-432 | the columns of a row leave the matrix and ghost flags alone |
| Scan.RepeatStep | src/board/system76/common/kbscan.c:435-457 | repeat leaves the matrix, ghost flags, layer cache and debounce unchanged |
| Scan.MarkGhost | src/board/system76/common/kbscan.c:359-361 | marking a ghost keeps the matrix and the layer cache |
| Scan.ClearGhost | src/board/system76/common/kbscan.c:362-367 | clearing a ghost mark keeps the matrix and the layer cache |
| Scan.Commit | src/board/system76/common/kbscan.c:434 | storing a row changes only that row of the matrix |
| Scan.ScanRow | src/board/system76/common/kbscan.c:358-434 | a changed, unghosted row changes only its own matrix byte and ghost flag |
| Scan.RowStep | src/board/system76/common/kbscan.c:355-458 | a row changes only its own matrix byte and ghost flag |
| Scan.StepFits | src/board/system76/common/kbscan.c:355-458 | every row step keeps the array sizes |
| Scan.FoldFits | src/board/system76/common/kbscan.c:355-458 | the rows of a pass keep the array sizes |
| Scan.Pass | src/board/system76/common/kbscan.c:333-474 | a pass keeps the array sizes |
| ScanProps.DiffRowsAgree | src/board/system76/common/kbscan.c:355-458 | the bit distance over rows depends only on the rows counted |
| ScanProps.DiffRowsUpdate | src/board/system76/common/kbscan.c:434 | storing one row adds that row's bit distance |
| ScanProps.DiffRowsZero | src/board/system76/common/kbscan.c:355-458 | matrices at bit distance 0 are equal |
| ScanProps.DiffRowsSelf | src/board/system76/common/kbscan.c:355-458 | a matrix is at bit distance 0 from itself |
| ScanProps.ColStepWellBehaved | src/board/system76/common/kbscan.c:370-432 | each column step commits at most one change, and only when it opens the window |
| ScanProps.ColStepWindow | src/board/system76/common/kbscan.c:375-431 | a column step commits a change only if it opens the debounce window |
| ScanProps.ColStepShape | src/board/system76/common/kbscan.c:375-431 | a column step leaves bit `j` new or reverted and opens the window on any commit |
| ScanProps.ShapeBehaves | src/board/system76/common/kbscan.c:375-431 | that shape keeps the bit distance within the window rule |
| ScanProps.ColsWindow | src/board/system76/common/kbscan.c:370-432 | the columns of a row commit at most one change, none while the window is open, and the window stays open |
| ScanProps.RowWindow | src/board/system76/common/kbscan.c:355-458 | a row commits at most one bit change, none under an open window |
| ScanProps.ScanRowWindow | src/board/system76/common/kbscan.c:358-434 | the same for a changed, unghosted row |
| ScanProps.RowStepWellBehaved | src/board/system76/common/kbscan.c:355-458 | every row step keeps sizes, touches only its row and obeys the window rule |
| ScanProps.FoldFitsRows | src/board/system76/common/kbscan.c:355-458 | folding well-behaved row steps keeps the array sizes |
| ScanProps.FoldFrame | src/board/system76/common/kbscan.c:355-458 | rows not yet scanned are untouched |
| ScanProps.FoldLater | src/board/system76/common/kbscan.c:355-458 | a row ends the pass as its own step left it |
| ScanProps.WindowStaysOpen | src/board/system76/common/kbscan.c:346-386 | once open, the debounce window stays open for the rest of the pass |
| ScanProps.FoldWindow | src/board/system76/common/kbscan.c:355-458 | the rows so far differ from the start in at most one bit, none under an open window |
| ScanProps.AtMostOneTransition | src/board/system76/common/kbscan.c:346-434 | a pass changes at most one matrix bit, none if the window was still open, and any change leaves the window open |
| ScanProps.GhostedRowHeld | src/board/system76/common/kbscan.c:358-361 | a changed row judged ghosted keeps its debounced value and is marked |
| ScanProps.GhostClearedRowReverts | src/board/system76/common/kbscan.c:362-367 | a changed row whose ghost mark clears keeps its value, and the window is open |
| ScanProps.GhostClearStep | src/board/system76/common/kbscan.c:362-434 | in that row's own step, the mark clears, the window opens and the row is reverted |
| ScanProps.KeylessDispatchesNothing | src/board/system76/common/kbscan.c:398-420 | a transition on a cell with no key, with the window closed, is committed with no output, no change to repeat tracking and no change of layer |
| ScanProps.ColStepCommits | src/board/system76/common/kbscan.c:375-431 | a changed bit is committed iff the window was closed and the key is missing or accepted; otherwise it reverts |
| ScanProps.ColStepCache | src/board/system76/common/kbscan.c:394-397 | the layer cache changes only on a press that opens the window, and gets the current layer |
| ScanProps.TransitionLayer | src/board/system76/common/kbscan.c:394-400 | a press looks its key up on the current layer, a release on the cached press layer |
| ScanProps.TickCloses | src/board/system76/common/kbscan.c:346-353 | the window stays open iff it was open and fewer than 15 ms passed, with wrapping subtraction |
| ScanProps.RepeatArms | src/board/system76/common/kbscan.c:440-449 | repeat starts once the key is held for the delay; a clock behind the press time restarts the delay |
| ScanProps.RepeatPresses | src/board/system76/common/kbscan.c:451-456 | while repeating, the key is pressed again iff more than the period has passed, which restarts the period |
| ScanProps.RepeatOncePerPass | src/board/system76/common/kbscan.c:451-456 | after a repeat, none is due again in the same pass |
| ScanProps.ExcludedKeyNeverRepeats | src/board/system76/common/kbscan.c:435 | an unchanged row with a non-repeating key changes nothing |
| ScanProps.TrackRepeatKey | src/board/system76/common/kbscan.c:408-417 | a press makes its key the repeat key; releasing it clears tracking; other releases change nothing |
| ScanProps.CleanAfterAppend | src/board/system76/common/kbscan.c:212-215 | appending calls with no scancode keeps a log free of scancodes |
| ScanProps.ColStepClean | src/board/system76/common/kbscan.c:370-432 | with scanning disabled, no column step sends a scancode |
| ScanProps.ColFoldClean | src/board/system76/common/kbscan.c:370-432 | with scanning disabled, no column of a row sends a scancode |
| ScanProps.RowStepClean | src/board/system76/common/kbscan.c:355-458 | with scanning disabled, no row step sends a scancode |
| ScanProps.RowClean | src/board/system76/common/kbscan.c:355-458 | the same for one row |
| ScanProps.FoldClean | src/board/system76/common/kbscan.c:355-458 | the same for any number of rows |
| ScanProps.PassSendsNoScancodes | src/board/system76/common/kbscan.c:333-474 | with `kbscan_enabled` clear, a whole pass sends no scancode |
| KbScan.Scanner.State | src/board/system76/common/kbscan.c:334-344 | the arrays and statics form a state of the right sizes |
| KbScan.Scanner.constructor | src/board/system76/common/kbscan.c:334-344 | at power-on every key is up, no row is ghosted, every cell is on layer 0, and there is no window or repeat |
| KbScan.Scanner.Hotkey | src/board/system76/common/kbscan.c:169-197 | `hardware_hotkey` updates the flags and appends the call it makes |
| KbScan.Scanner.PressKey | src/board/system76/common/kbscan.c:199-311 | `kbscan_press` returns, sets the layer slot and flags, and makes the calls that `KeyPress.Press` describes |
| KbScan.Scanner.PressAwake | src/board/system76/common/kbscan.c:205-311 | the part after the wake-up |
| KbScan.Scanner.WakeOnPress | src/board/system76/common/kbscan.c:200-203 | a press with the lid open in S3 wakes the host |
| KbScan.Scanner.DispatchKey | src/board/system76/common/kbscan.c:211-309 | the key-type switch |
| KbScan.Scanner.PressSci | src/board/system76/common/kbscan.c:278-292 | the SCI case |
| KbScan.Scanner.PressSciExtra | src/board/system76/common/kbscan.c:293-308 | the SCI_EXTRA case, which stores the payload in `sci_extra` |
| KbScan.Scanner.PressCombo | src/board/system76/common/kbscan.c:228-277 | the combination keys |
| KbScan.Scanner.Event | src/board/system76/common/kbscan.c:333-474 | one `kbscan_event` on the arrays leaves exactly the state `Scan.Pass` gives, so every `ScanProps` pass lemma holds of it |
| KbScan.Scanner.TickDebounce | src/board/system76/common/kbscan.c:346-353 | the window closes after 15 ms |
| KbScan.Scanner.Rows | src/board/system76/common/kbscan.c:355-458 | the row loop equals the fold of row steps |
| KbScan.Scanner.Row | src/board/system76/common/kbscan.c:356-457 | one row equals `Scan.RowStep` |
| KbScan.Scanner.MarkGhosted | src/board/system76/common/kbscan.c:359-361 | a ghosted row is marked and kept |
| KbScan.Scanner.ChangedRow | src/board/system76/common/kbscan.c:362-434 | a changed, unghosted row equals `Scan.ScanRow` |
| KbScan.Scanner.ScanColumns | src/board/system76/common/kbscan.c:370-432 | the column loop equals the fold of column steps |
| KbScan.Scanner.RepeatRow | src/board/system76/common/kbscan.c:435-457 | the repeat branch equals `Scan.RepeatStep` |
| KbScan.Scanner.ColumnStep | src/board/system76/common/kbscan.c:372-431 | one column equals `Scan.ColStep` |
| KbScan.Scanner.AcceptTransition | src/board/system76/common/kbscan.c:383-397 | opening the window, the Esc/Fn held flags and the layer cache |
| KbScan.Scanner.DeliverKey | src/board/system76/common/kbscan.c:398-420 | key lookup, dispatch and repeat tracking equal `Scan.Deliver` |
| KbScan.Scanner.TrackKey | src/board/system76/common/kbscan.c:408-417 | repeat tracking equals `Scan.Track` |
| KbScan.DeliverDispatches | src/board/system76/common/kbscan.c:398-417 | a cell with a key dispatches it, records the calls and tracks repeat |
| Fan.PwmDuty | src/board/system76/common/peci.c:39 | a percentage becomes the least duty whose share of 255 is at least that percentage |
| Fan.DutyConstants | src/board/system76/common/peci.c:495-505 | off, half and full are `PWM_DUTY` of 0, 50 and 100 |
| Fan.SetCurveContract | src/board/system76/common/peci.c:64-77 | -1 with no change iff the count differs from the curve's size; otherwise every point is copied in order and 0 is returned |
| Fan.SetCurveIdempotent | src/board/system76/common/peci.c:64-77 | setting the same points twice is the same as once |
| Fan.Curve.constructor | src/board/system76/common/peci.c:43-62 | a curve starts with its default points |
| Fan.Curve.SetPoints | src/board/system76/common/dgpu.c:97-110 | the in-place copy returns the status and leaves the curve that `SetCurve` gives |
| Fan.Override | src/board/system76/common/peci.c:503-510 | with PECI on and `fan_max`, the duty is full and unfiltered; otherwise it is filtered |
| Peci.AvailableOnlyInS0 | src/board/system76/common/peci.c:80-105 | PECI is never available outside S0; on eSPI it also needs no host reset and PLTRST# HIGH |
| Peci.TempFromBytes | src/board/system76/common/peci.c:180 | `(high << 8) \| low` on 16 bits is the two's-complement value of the bytes |
| Peci.EspiGetTemp | src/board/system76/common/peci.c:115-191 | a reading exists iff the reply is at least 7 bytes, and it is bytes 5 and 6 joined |
| Peci.LegacyGetTemp | src/board/system76/common/peci.c:308-346 | a reading exists iff the status has no hardware error |
| Peci.GetTemp | src/board/system76/common/peci.c:115-346 | the eSPI or the legacy `peci_get_temp`, by the bus the reading came over |
| Peci.JunctionTemp | src/board/system76/common/peci.c:490 | the temperature is `t_junction` plus the offset shifted right by 6, rounded toward minus infinity |
| Peci.WrPayloadFields | src/board/system76/common/peci.c:226-237 | the WrPkgConfig body is host id 0, the index, then the parameter and data little-endian |
| Peci.WrPayloadBytes | src/board/system76/common/peci.c:371-382 | the body byte by byte, as the `(uint8_t)(x >> n)` casts give it |
| Peci.StageWrRequest | src/board/system76/common/peci.c:209-237 | UDB[0..15] receive the header and body, and nothing past them changes |
| Peci.StageWrHeader | src/board/system76/common/peci.c:209-224 | UDB[0..7] receive the eSPI OOB header |
| Peci.StageWrBody | src/board/system76/common/peci.c:226-237 | UDB[8..15] receive the body |
| Peci.PushWrRequest | src/board/system76/common/peci.c:371-382 | the legacy bus pushes the same body into HOWRDR |
| Peci.RdPayloadIsWrPrefix | src/board/system76/common/peci.c:436-442 | the RdPkgConfig body is the first four bytes of the WrPkgConfig body |
| Peci.PushRdRequest | src/board/system76/common/peci.c:436-442 | the legacy bus pushes the RdPkgConfig body |
| Peci.HardwareError | src/board/system76/common/peci.c:395 | `-(0x1000 \| status)` lies in -0x10FF..-0x1000 |
| Peci.PlaceShift | src/board/system76/common/peci.c:470 | `(uint32_t)x << (8 * k)` puts the byte at position `k` |
| Peci.GatheredAll | src/board/system76/common/peci.c:469-471 | ORing the four reply bytes into place gives their little-endian value |
| Peci.RdPkgConfig | src/board/system76/common/peci.c:414-477 | hardware error gives `-(0x1000\|status)`; another code gives `-cc`; 0x40 gives 0 with the value read little-endian; every negative result leaves the value 0, a result is at most -0x1000 iff the hardware failed and in -0xFF..-1 iff a non-zero code other than 0x40 came back |
| Peci.LegacyWrPkgConfigSign | src/board/system76/common/peci.c:350-412 | the result is 0x40 iff no hardware error and the command passed; hardware errors are at most -0x1000 |
| Peci.EspiWrReply | src/board/system76/common/peci.c:268-289 | a reply gives a non-negative result iff it has 6 bytes and bit 7 of the code is clear |
| Peci.EspiWrTimeoutLooksLikeSuccess | src/board/system76/common/peci.c:245-265 | as written, a timeout returns a non-negative value |
| Peci.EspiWrPkgConfig | src/board/system76/common/peci.c:193-290 | non-negative iff a reply of 6 bytes or more with bit 7 clear; a reply is answered as written, a timeout negatively |
| Peci.BaseDuty | src/board/system76/common/peci.c:485-501 | unavailable: temp 0, duty off; failed read: temp 0, duty 50%; otherwise the junction temperature and the curve's duty |
| Peci.Driver.constructor | src/board/system76/common/peci.c:32-52 | PECI off, temp 0, `t_junction` 100 and the default 25/30/35/100% curve |
| Peci.Driver.GetFanDuty | src/board/system76/common/peci.c:482-515 | `peci_on` is availability; temp and duty are `BaseDuty` with the `fan_max` override |
| Peci.Driver.Sample | src/board/system76/common/peci.c:482-515 | `peci_on` is `peci_available()` of the signals, so PECI is on only in S0; temp and duty are `BaseDuty` of the GetTemp reading with the `fan_max` override |
| Peci.OffOutsideS0 | src/board/system76/common/peci.c:485-501 | outside S0 the driver is off on either bus: temp 0 and the filtered off duty, `fan_max` or not |
| Peci.FanMaxOverrides | src/board/system76/common/peci.c:503-510 | PECI up and `fan_max` give full, unfiltered duty; unavailable gives filtered off and temp 0 |
| Dgpu.SupplyProductFits | src/board/system76/common/dgpu.c:66-67 | the 32-bit product of two 16-bit values never wraps |
| Dgpu.Level | src/board/system76/common/dgpu.c:69-87 | the cascade yields a level in 0..4 |
| Dgpu.DNotifyLevel | src/board/system76/common/dgpu.c:61-95 | the level is in 0..4, and 0 without AC or without D-notify |
| Dgpu.LevelIsFirstMet | src/board/system76/common/dgpu.c:69-87 | the level is the first threshold met, and 4 if none is |
| Dgpu.LevelMonotone | src/board/system76/common/dgpu.c:69-87 | more supply never gives a higher level |
| Dgpu.SupplyWraps | src/board/system76/common/dgpu.c:63-67 | the 16-bit `supply_watts` is the true wattage iff the mA·V product is below 65 536 000, and never exceeds it |
| Dgpu.BaseDuty | src/board/system76/common/dgpu.c:119-136 | GPU not awake: temp 0, off; read failed: temp 0, 50%; otherwise the read temperature and the curve's duty |
| Dgpu.Driver.constructor | src/board/system76/common/dgpu.c:32-59 | temp 0 and the default five-point 40/50/60/65/65% curve |
| Dgpu.Driver.GetFanDuty | src/board/system76/common/dgpu.c:117-149 | temp and duty are `BaseDuty` of S0 ∧ DGPU_PWR_EN ∧ ¬GC6_FB_EN, with the override |
| Dgpu.NoDgpuFanDuty | src/board/system76/common/dgpu.c:162-164 | without a dGPU the duty is `PWM_DUTY(0)`, unfiltered |
| Dgpu.FanMaxOverrides | src/board/system76/common/dgpu.c:138-145 | PECI on and `fan_max` give full, unfiltered duty; a sleeping GPU gives filtered off |
| Dgpu.DefaultCurveDuties | src/board/system76/common/dgpu.c:43-47 | the default curves' duties are `PWM_DUTY` of their percentages |
| Smfi.Zeros | src/board/system76/common/smfi.c:86-101 | a cleared region is 256 zero bytes |
| Smfi.CString | src/board/system76/common/smfi.c:389 | a C string is the prefix of the buffer before its first NUL |
| Smfi.CurvePoints | src/board/system76/common/smfi.c:232-239 | the command carries exactly four curve points |
| SmfiProps.IdleChangesNothing | src/board/system76/common/smfi.c:369-370 | with the command byte `CMD_NONE`, `smfi_event` changes nothing |
| SmfiProps.HandleAnswers | src/board/system76/common/smfi.c:376-451 | every command answers `RES_OK` or `RES_ERR` |
| SmfiProps.PendingCompletes | src/board/system76/common/smfi.c:369-456 | a pending command ends with `CMD_NONE`, the handler's result and the handler's data bytes |
| SmfiProps.UnknownCommandFails | src/board/system76/common/smfi.c:447-450 | an unknown code answers `RES_ERR` and changes nothing else |
| SmfiProps.ProbeSignature | src/board/system76/common/smfi.c:378-387 | probe writes 76 EC 01 at DATA and `RES_OK`, and nothing else |
| SmfiProps.CStringEndsAt | src/board/system76/common/smfi.c:389 | a run of non-NUL bytes ended by a NUL or the end is the C string |
| SmfiProps.StringReadBack | src/board/system76/common/smfi.c:388-397 | the host reads the board or version string back, cut to 254 bytes, and CMD/RES are untouched |
| SmfiProps.PrintContract | src/board/system76/common/smfi.c:118-130 | print takes min(len, 252) bytes from inside the region, writes that count back to DATA+1 and changes nothing else |
| SmfiProps.FanIndexChecked | src/board/system76/common/smfi.c:132-169 | fan indexes other than 0 and 1 fail with no write |
| SmfiProps.FanSetThenGet | src/board/system76/common/smfi.c:132-169 | reading a fan after setting it gives the value set |
| SmfiProps.CpuFansTogether | src/board/system76/common/smfi.c:152-159 | fan 0 sets CPU fan 1 and, iff the board has it, CPU fan 2; the GPU fan is kept |
| SmfiProps.PercentDuty | src/board/system76/common/smfi.c:238 | for 0..100 the duty is `p*255/100`, at most 1 below `PWM_DUTY(p)` |
| SmfiProps.PercentDutyWraps | src/board/system76/common/smfi.c:238 | 200 gives duty 111 because the 16-bit product wraps |
| SmfiProps.FanCurveSetRejects | src/board/system76/common/smfi.c:241-254 | invalid points or an unsupported fan fail with no change |
| SmfiProps.FanCurveSetOutcome | src/board/system76/common/smfi.c:233-257 | the corrected handler succeeds iff the points are valid and the chosen curve has four points, then stores them |
| SmfiProps.FanCurveSetHidesRefusal | src/board/system76/common/smfi.c:244-256 | as written, a curve the dGPU setter refuses is answered `RES_OK` |
| SmfiProps.KeySplitJoins | src/board/system76/common/smfi.c:177-178 | the low and high bytes of a key give it back |
| SmfiProps.KeyJoinSplits | src/board/system76/common/smfi.c:189-190 | a key joined from two bytes splits back into them |
| SmfiProps.KeymapGetLayout | src/board/system76/common/smfi.c:171-183 | the key is written little-endian at DATA+3, DATA+4, and nothing else changes |
| SmfiProps.KeymapSetStores | src/board/system76/common/smfi.c:185-192 | the keymap is asked to store the little-endian key at the requested position |
| SmfiProps.KeymapRoundTrip | src/board/system76/common/smfi.c:171-203 | getting back a key that was set reproduces the request bytes |
| SmfiProps.KeymapSetResult | src/board/system76/common/smfi.c:192-202 | set succeeds iff the keymap stored the key and the configuration was saved |
| SmfiProps.MatrixReadBack | src/board/system76/common/smfi.c:205-214 | DATA and DATA+1 hold KM_OUT and KM_IN, then each row that fits in the region |
| SmfiProps.MatrixFrame | src/board/system76/common/smfi.c:205-214 | nothing before DATA or past the rows changes |
| SmfiProps.NextTailCycles | src/board/system76/common/smfi.c:459-463 | the tail steps through 1..255 cyclically |
| SmfiProps.DebugPushSlots | src/board/system76/common/smfi.c:458-466 | only the new tail slot and slot 0 change; the byte is at the new tail |
| SmfiProps.AdvanceCycles | src/board/system76/common/smfi.c:459-463 | after `n` bytes the tail is `(tail + n - 1) mod 255 + 1` |
| SmfiProps.AdvanceDistinct | src/board/system76/common/smfi.c:459-463 | within 255 bytes the tail never revisits a slot |
| SmfiProps.RingPeriod | src/board/system76/common/smfi.c:459-463 | after 255 bytes the tail is back where it was |
| SmfiProps.PushAllTail | src/board/system76/common/smfi.c:458-466 | the tail advances once per byte |
| SmfiProps.RingKeepsLast | src/board/system76/common/smfi.c:458-466 | the ring keeps the last 255 bytes, each at its own slot |
| SmfiRam.Mailbox.constructor | src/board/system76/common/smfi.c:79-83 | two fresh 256-byte regions and the drivers whose curves the mailbox sets |
| SmfiRam.Mailbox.Init | src/board/system76/common/smfi.c:86-101 | the clearing loops zero every byte of both regions |
| SmfiRam.Mailbox.Debug | src/board/system76/common/smfi.c:458-466 | the ring becomes `Smfi.DebugPush` of the old ring |
| SmfiRam.Mailbox.Event | src/board/system76/common/smfi.c:369-456 | the new state is `Smfi.Step` of the old, so the `SmfiProps` event lemmas hold of it |
| SmfiRam.Mailbox.Dispatch | src/board/system76/common/smfi.c:376-451 | the switch equals `Smfi.Handle` |
| SmfiRam.Mailbox.AnswerProbe | src/board/system76/common/smfi.c:378-387 | equals `Smfi.CmdProbe` |
| SmfiRam.Mailbox.AnswerString | src/board/system76/common/smfi.c:388-397 | the `strncpy` loop equals `Smfi.CmdString` |
| SmfiRam.Mailbox.PrintData | src/board/system76/common/smfi.c:118-130 | equals `Smfi.CmdPrint` |
| SmfiRam.Mailbox.PutChars | src/board/system76/common/smfi.c:122-125 | the loop prints min(len, 252) bytes after DATA+1, in order |
| SmfiRam.Mailbox.ReadFan | src/board/system76/common/smfi.c:132-148 | equals `Smfi.CmdFanGet` |
| SmfiRam.Mailbox.WriteFan | src/board/system76/common/smfi.c:150-169 | equals `Smfi.CmdFanSet` |
| SmfiRam.Mailbox.ReadKey | src/board/system76/common/smfi.c:171-183 | equals `Smfi.CmdKeymapGet` |
| SmfiRam.Mailbox.WriteKey | src/board/system76/common/smfi.c:185-203 | equals `Smfi.CmdKeymapSet` |
| SmfiRam.Mailbox.ReadMatrix | src/board/system76/common/smfi.c:205-214 | equals `Smfi.CmdMatrixGet` |
| SmfiRam.Mailbox.CopyRows | src/board/system76/common/smfi.c:208-212 | row `r` lands at DATA+2+r when it fits, and no other byte changes |
| SmfiRam.Mailbox.WriteCurve | src/board/system76/common/smfi.c:233-257 | the corrected curve command, `Smfi.CmdFanCurveSet`, on the drivers' curve arrays |
| SmfiRam.Mailbox.WriteOption | src/board/system76/common/smfi.c:277-279 | equals `Smfi.CmdOptionSet` |

## Left out

- Matrix strobing, the GPIO and keyboard-scan registers, `kbscan_init` and
  `delay_ticks` are electrical I/O. The rows of a pass are an input, and only
  the lid-closed rule of `kbscan_get_row` is kept.
- `kbscan_has_ghost_in_row` re-reads the other rows. The model reads them from
  the same per-pass snapshot as the row itself.
- `time_get()` is read once per pass. The firmware reads it at each use, which
  can differ by the time one pass takes.
- The keymap, `kbc_scancode`, `pmc_sci`, `pmc_swi`, GPIO and `kbled_*` are
  parameters or logged events. Their bodies are not part of this model.
- The key codes and `SCI_EXTRA` come from `common/keymap.h`, which is not part
  of this model. They take the upstream values.
- The SMFI command codes and `CMD_SPI_FLAG_SCRATCH` (`common/command.h`) are
  parameters. `PWM_DUTY` (`ec/pwm.h`) is modelled as the rounded-up percentage
  that the default curves use.
- The security commands (`CONFIG_SECURITY`) are not modelled. `cmd_spi` and
  `cmd_reset` are modelled as if the EC were unlocked.
- The scratch-ROM SPI path (`cmd_spi_scratch`, `__SCRATCH__`),
  `scratch_trampoline` and the watchdog registers are recorded as log entries.
  They are ROM-mode and hardware plumbing.
- H2RAM window setup in `smfi_init` is register configuration.
- `putchar` output is a byte sequence. Camera, wireless and option calls are
  log entries or `Services` answers.
- `fan_duty`, `fan_heatup`, `fan_cooldown` and `fan_points_are_valid` are
  parameters, because `fan.c` is not part of this model.
- The PECI register handshakes, busy-waits, timeouts and the retry loop
  condition (`!retry--`) are not modelled. The legacy transactions are modelled
  from their last attempt on, and the eSPI ones from the transfer outcome.
- `i2c_get` of the dGPU temperature is an input, and the D-notify thresholds
  and charger readings are parameters.
- Interrupts and `__critical` sections are not modelled.
- SmfiRam.Mailbox.Event: a fan-curve command whose setter refuses the points
  is answered `RES_ERR`, where `cmd_fan_curve_set` answers `RES_OK`. The
  mailbox runs the corrected handler of the second row under "## Findings".
- SmfiRam.Mailbox.Dispatch: the switch dispatches the corrected
  `Smfi.CmdFanCurveSet`, not `Smfi.CmdFanCurveSetAsWritten`, so it answers a
  refused curve with `RES_ERR` where the firmware answers `RES_OK`.
- SmfiRam.Mailbox.WriteCurve: answers `RES_ERR` when a setter refuses the
  points; the firmware ignores the setter's status and answers `RES_OK`.
- The scanner fixes `KM_IN` at 8 (`Ghost.Columns`), the width of the `uint8_t`
  row it scans. Boards with another column count are not modelled; the SMFI
  matrix command takes `KM_IN` as a parameter.
- Smfi.CmdString: the copy is specified by the read-back property
  `SmfiProps.StringReadBack`. It covers the bytes up to the first NUL, not the
  NUL padding `strncpy` writes after them.

## Findings

| source | as written | input that shows it | evidently intended | confidence | as-written member | corrected member |
|---|---|---|---|---|---|---|
| src/board/system76/common/peci.c:245-265 | the eSPI `peci_wr_pkg_config` returns `false` (0) on an upstream or response timeout | any timeout of the OOB channel | a negative error, as the comment at lines 193-194 promises for every failure | not executed | Peci.EspiWrPkgConfigAsWritten (shown by Peci.EspiWrTimeoutLooksLikeSuccess) | Peci.EspiWrPkgConfig |
| src/board/system76/common/smfi.c:244-256 | `cmd_fan_curve_set` ignores the setter's status and answers `RES_OK` once a setter was called | fan 1 on a board with a dGPU and the default five-point curve (dgpu.c:43-47): `dgpu_set_fan_curve(4, …)` returns -1 and changes nothing | `RES_ERR` when the setter refuses | not executed | Smfi.CmdFanCurveSetAsWritten (shown by SmfiProps.FanCurveSetHidesRefusal) | Smfi.CmdFanCurveSet (proved by SmfiProps.FanCurveSetOutcome, used by SmfiRam.Mailbox.WriteCurve) |
