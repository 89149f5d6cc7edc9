# Correction-page session bookkeeping, in Dafny

The correction page lets a user upload a photo of handwritten text. It sends
the photo to a remote correction service and shows the corrected image and
text. The user can then add correction records by hand, or keep only some of
them through one checkbox per record. The edited list goes back to the
service for a revised image.

This project models what the page keeps in its session between reruns:

- the correction list (`json_output.mistakes` of the cached response);
- the selection flags, one bool per record, or none yet;
- the two mode toggles ("add corrections", "select corrections");
- the pending form fields;
- the reset done by the "start correcting" button.

It also models the body of the re-predict request.

- `records.dfy` (module `Records`): the values. These are a correction record
  `{original, corrected, category}`, the service's response, the re-predict
  body, and the category check against the seven suggested names.
- `flags.dfy` (module `Flags`): the pure steps on the flags.
  - `Resized` resizes the flags to the list.
  - `SelectAll` is the select/deselect-all rule.
  - `Overlay` applies the per-row checkbox results.
  - `Filter` is the zip-and-keep list comprehension.
  - Lemmas characterise `Filter` as the order-preserving subsequence of the
    flagged records.
- `session.dfy` (module `SessionState`): class `Session`.
  - Its fields are the session fields. Each method is one block of the page
    script and changes only the fields in its `modifies` frame.
  - Each method states the new value of every field it may change; the
    methods that change the flags state their new value with the `Flags`
    functions.
  - `Valid()` is the session invariant. It says a response exists only for an
    uploaded image, and flags exist only once there is a response.
  - The ghost field `fetched` keeps the response as first served. `Valid()`
    says the cached response differs from it only in its mistakes list. So the
    re-predict body always carries the processed image as first returned.

Widget results (button presses, text fields, checkbox values) and the
service's answer are method parameters. A row checkbox is an `Option<bool>`.
`Some(b)` is a value the user's widget already holds. `None` is a freshly
created widget, which returns the default it is given: the stored flag.
Through that default, resizing and the master checkbox affect what the rows
show.

The model follows the code as written, in particular:

- Unchecking the master box deselects everything only when every flag is
  already True. This includes the empty list, since Python's `all([])` is
  True. Otherwise the flags stay as they are (`Flags.UncheckPartialIsNoOp`).
- Confirming a selection replaces the list but does not re-index the flags.
  On the next pass the resize truncates the old flags by position, so a kept
  record can show as unselected (`Flags.ConfirmKeepsStaleFlags`,
  `Flags.KeptRecordShowsUnselected`).
- One might expect the flags list to always be as long as the correction
  list. The code only restores this when the select panel runs its resize.
  Appending while the panel is closed, and confirming, leave the two lengths
  different until then. So `Valid()` does not include the length equality.
  `Resized` guarantees it after each resize, and `ApplyCheckboxes` requires
  it.
- The two modes are independent booleans in the code, so both can be on at
  once. The model keeps two booleans.
- Opening and closing the select panel is not a no-op on the flags. The run
  the opening press starts goes on to resize the flags and apply the
  select-all rule before the closing press can happen, so absent flags become
  all False and an unchecked master box clears all-True flags
  (`SessionState.OpenThenCloseSelectPanel`).

## Model

| member | source | states |
|---|---|---|
| Records.IsKnownCategory | frontend.py:101 | a category is known exactly when it equals one of the seven listed names; the empty string is never known |
| Flags.Resized | frontend.py:121-129 | the flags end up exactly as long as the correction list; absent flags become all False; flags below the smaller of the old and new lengths keep their value; every added flag is False |
| Flags.SelectAll | frontend.py:131-136 | a checked master box makes every flag True; an unchecked one makes every flag False when all were True; otherwise the flags are unchanged; the length is kept |
| Flags.Overlay | frontend.py:138-144 | each row takes the value its checkbox holds, or keeps its stored flag when the widget is new; the length is kept |
| Flags.Filter | frontend.py:147-149 | the filtered list is never longer than the correction list |
| Flags.FilterIsSelectedSubsequence | frontend.py:147-149 | the filtered list's k-th entry is the record at the k-th flagged position; the positions ascend; a position within the zip is used exactly when its flag is True |
| Flags.FilterMembers | frontend.py:147-149 | every kept record is one of the corrections |
| Flags.FilterLength | frontend.py:147-149 | with one flag per record, the filtered list has as many entries as there are True flags |
| Flags.FilterAllSelected | frontend.py:147-149 | with every flag True, the filtered list is the whole correction list |
| Flags.FilterNoneSelected | frontend.py:147-149 | with no flag True, the filtered list is empty |
| Flags.CheckThenUncheck | frontend.py:131-136 | checking the master box selects all; unchecking it afterwards deselects all |
| Flags.UncheckPartialIsNoOp | frontend.py:134-136 | with some flag False, an unchecked master box leaves the flags untouched |
| Flags.ConfirmKeepsStaleFlags | frontend.py:124-152 | after confirming, the next resize keeps the first flags by position rather than re-indexing them to the kept records |
| Flags.KeptRecordShowsUnselected | frontend.py:124-152 | keeping only the second of two records leaves that record's flag False on the next pass |
| SessionState.Session.constructor | frontend.py:19-30 | a new session has no image, no response and no flags, both modes off and empty form fields |
| SessionState.Session.StartCorrecting | frontend.py:47-53 | the reset stores the uploaded value as the image, clears the response and the flags, turns both modes off and empties the three form fields |
| SessionState.Session.FetchIfAbsent | frontend.py:59-66 | the service's answer is stored only when no response is cached; a cached response is kept as it is |
| SessionState.Session.ToggleAdding | frontend.py:87-88 | the add mode is negated and nothing else changes |
| SessionState.Session.AddCorrection | frontend.py:91-108 | the category warning is raised exactly when the add mode is on and the category is non-empty and unknown; exactly one record carrying the three strings is appended at the end exactly when the add mode is on, all three fields are non-empty and the button is pressed, whatever the category; otherwise the list is unchanged |
| SessionState.Session.ToggleSelecting | frontend.py:115-116 | the select mode is negated and nothing else changes |
| SessionState.Session.ResizeFlags | frontend.py:121-129 | the stored flags become `Resized` of the old flags for the current list length |
| SessionState.Session.ApplySelectAll | frontend.py:131-136 | the stored flags become `SelectAll` of the old flags |
| SessionState.Session.ApplyCheckboxes | frontend.py:138-144 | the per-index loop leaves the stored flags equal to `Overlay` of the old flags and the checkbox results |
| SessionState.Session.ConfirmSelection | frontend.py:151-152 | the correction list becomes exactly the given list and the flags are unchanged |
| SessionState.Session.SelectCorrections | frontend.py:118-152 | with the select mode on, the flags become the overlay of the select-all rule applied to the resized flags; the returned list is the filter of the old correction list by those flags; confirming adopts that list. With the mode off, nothing changes |
| SessionState.Session.RePredictPayload | frontend.py:167-170 | the body carries the current `json_output`, including its edited mistakes list, and the processed image as the service first returned it |
| SessionState.ToggleTwice | frontend.py:87-116 | calling each toggle method twice in a row restores both modes and leaves every other field (image, response, flags, form fields) unchanged |
| SessionState.OpenThenCloseSelectPanel | frontend.py:115-136 | opening the select panel, one run of it without confirming, and closing it restores the mode and the response, while the flags become the overlay of the select-all rule applied to the resized flags |
| SessionState.AddUnknownCategory | frontend.py:98-108 | a category outside the seven names is warned about and still appended |
| SessionState.TwoMistakeScenario | frontend.py:47-170 | upload, a first answer with two mistakes, a pass drawing fresh row widgets, a pass ticking only the second row, a pass confirming, then the re-correct pass (where the open panel's stale flag keeps nothing): the re-predict body carries exactly the second record, the original corrected text and the original processed image |

## Left out

- The HTTP calls to `/predict` and `/re_predict` and their error checks (frontend.py:62-66, 165-174) are network I/O. The predict answer is the parameter of `FetchIfAbsent`. An HTTP failure, which aborts the run, is not modelled.
- Base64 decoding, PIL image opening and PDF conversion (frontend.py:70-71, 176-197) act on binary image data in foreign libraries.
- The per-run `re_correct_flag` (frontend.py:12, 54, 159) and the `if re_correct_flag:` choice at frontend.py:190-197 only decide which image is rendered and converted to PDF, which is outside the session state.
- Page rendering (markdown, images, columns, the download button) and the "You entered" and confirmation messages are output only. The warning for an unknown category is the `unknownCategory` result of `AddCorrection`.
- The framework's keyed widget state is reduced to one value per widget. A checkbox either holds a user value or returns its default.
- Loading the environment and the service URL (frontend.py:7-11) is configuration I/O.
- The `correction_inputs` session field is only ever reset. The add form reads its own keyed text widgets, which are the parameters of `AddCorrection`.
- Python's in-place `list.extend` and `dict` aliasing (`data` is the cached response object) are modelled by reassigning the `selected` and `response` fields. Two locals also refer to the cached mistakes list: `corrections` (frontend.py:119) is that list, and after frontend.py:152 the local `selected` (frontend.py:147) is the new list itself. Both are only read afterwards, so reassigning the fields loses no behaviour.
