/** The per-user session of the correction page: the uploaded image, the
    service's cached response (whose mistakes list the user edits), the
    selection flags, the two mode toggles and the pending form fields. Each
    method is one block of the page script; widget results (button presses,
    text fields, checkbox values) and the service's answer are parameters. */
module SessionState {
  import opened Records
  import opened Flags

  class Session {
    var image: Option<Bytes>
    var response: Option<Response>
    var selected: Option<seq<bool>>
    var adding: bool
    var selecting: bool
    var inputs: Inputs

    /** The response exactly as the service first returned it. */
    ghost var fetched: Option<Response>

    /** A response is only ever fetched for an uploaded image, flags only
        exist once there is a response, and the cached response differs from
        the one first served at most in its mistakes list. */
    ghost predicate Valid()
      reads this
    {
      (response.Some? <==> fetched.Some?) &&
      (response.Some? ==> image.Some? && SameOrigin(response.value, fetched.value)) &&
      (selected.Some? ==> response.Some?)
    }

    /** The current correction list, `data["json_output"]["mistakes"]`. */
    function Mistakes(): (ms: seq<Correction>)
      reads this
      requires response.Some?
    {
      response.value.jsonOutput.mistakes
    }

    /** The first run of the script: every session field gets its default. */
    constructor ()
      ensures Valid()
      ensures image.None? && response.None? && selected.None?
      ensures !adding && !selecting && inputs == EmptyInputs
    {
      image := None;
      response := None;
      selected := None;
      adding := false;
      selecting := false;
      inputs := EmptyInputs;
      fetched := None;
    }

    /** The "start correcting" button: store the uploaded file (possibly
        none) and clear everything else. */
    method StartCorrecting(upload: Option<Bytes>)
      modifies this
      ensures Valid()
      ensures image == upload && response.None? && selected.None?
      ensures !adding && !selecting && inputs == EmptyInputs
    {
      image := upload;
      response := None;
      selected := None;
      adding := false;
      selecting := false;
      inputs := EmptyInputs;
      fetched := None;
    }

    /** With an image stored, the service is asked only when no response is
        cached; `served` stands for its answer. */
    method FetchIfAbsent(served: Response)
      requires Valid() && image.Some?
      modifies this`response, this`fetched
      ensures Valid() && response.Some?
      ensures old(response).None? ==> response == Some(served) && fetched == Some(served)
      ensures old(response).Some? ==> response == old(response) && fetched == old(fetched)
    {
      if response.None? {
        response := Some(served);
        fetched := Some(served);
      }
    }

    /** The "add corrections" button flips the add mode. */
    method ToggleAdding()
      requires Valid()
      modifies this`adding
      ensures Valid() && adding == !old(adding)
    {
      adding := !adding;
    }

    /** The add-correction form. While the add mode is on, a non-empty
        category outside the seven names raises a warning, and when all three
        fields are non-empty and the validate button is pressed one record is
        appended; the category never blocks it. */
    method AddCorrection(mistake: string, correction: string, mistakeType: string, confirm: bool)
      returns (unknownCategory: bool, added: bool)
      requires Valid() && response.Some?
      modifies this`response
      ensures Valid() && response.Some?
      ensures unknownCategory == (adding && mistakeType != "" && !IsKnownCategory(mistakeType))
      ensures added == (adding && mistake != "" && correction != "" && mistakeType != "" && confirm)
      ensures added ==> Mistakes() == old(Mistakes()) + [Correction(mistake, correction, mistakeType)]
      ensures !added ==> Mistakes() == old(Mistakes())
    {
      unknownCategory, added := false, false;
      if adding {
        if mistakeType != "" {
          unknownCategory := !IsKnownCategory(mistakeType);
        }
        if mistake != "" && correction != "" && mistakeType != "" && confirm {
          var ms := response.value.jsonOutput.mistakes + [Correction(mistake, correction, mistakeType)];
          response := Some(WithMistakes(response.value, ms));
          added := true;
        }
      }
    }

    /** The "select corrections" button flips the select mode. */
    method ToggleSelecting()
      requires Valid()
      modifies this`selecting
      ensures Valid() && selecting == !old(selecting)
    {
      selecting := !selecting;
    }

    /** Make room for one flag per correction: create all-False flags, or
        extend with False, or truncate. */
    method ResizeFlags()
      requires Valid() && response.Some?
      modifies this`selected
      ensures Valid() && selected.Some?
      ensures selected.value == Resized(old(selected), |Mistakes()|)
    {
      var n := |response.value.jsonOutput.mistakes|;
      if selected.None? {
        selected := Some(Falses(n));
      } else {
        var diff := n - |selected.value|;
        if diff > 0 {
          selected := Some(selected.value + Falses(diff));
        } else if diff < 0 {
          selected := Some(selected.value[..n]);
        }
      }
    }

    /** The master "select / deselect all" checkbox. */
    method ApplySelectAll(checked: bool)
      requires Valid() && response.Some? && selected.Some?
      modifies this`selected
      ensures Valid() && selected.Some?
      ensures selected.value == SelectAll(old(selected).value, |Mistakes()|, checked)
    {
      var n := |response.value.jsonOutput.mistakes|;
      if checked {
        selected := Some(Trues(n));
      } else if AllTrue(selected.value) {
        selected := Some(Falses(n));
      }
    }

    /** One checkbox per correction, each seeded with its stored flag; the
        flag at each index is overwritten with what the checkbox returns. */
    method ApplyCheckboxes(boxes: seq<Option<bool>>)
      requires Valid() && response.Some? && selected.Some?
      requires |selected.value| == |Mistakes()| == |boxes|
      modifies this`selected
      ensures Valid() && selected.Some?
      ensures selected.value == Overlay(old(selected).value, boxes)
    {
      ghost var before := selected.value;
      for i := 0 to |boxes|
        invariant selected.Some? && |selected.value| == |before|
        invariant forall k :: 0 <= k < i ==> selected.value[k] == Overlay(before, boxes)[k]
        invariant forall k :: i <= k < |before| ==> selected.value[k] == before[k]
      {
        var v := if boxes[i].Some? then boxes[i].value else selected.value[i];
        selected := Some(selected.value[i := v]);
      }
    }

    /** The "validate the corrections" button: the correction list becomes
        the filtered list; the flags are left as they are. */
    method ConfirmSelection(kept: seq<Correction>)
      requires Valid() && response.Some?
      modifies this`response
      ensures Valid() && response.Some?
      ensures Mistakes() == kept && selected == old(selected)
    {
      response := Some(WithMistakes(response.value, kept));
    }

    /** The whole "select corrections" panel, rendered only while the select
        mode is on: resize, the master checkbox, the row checkboxes, the
        filtered list and, if confirmed, its adoption. Returns the filtered
        list (empty when the panel is not shown). */
    method SelectCorrections(selectAll: bool, boxes: seq<Option<bool>>, confirm: bool)
      returns (kept: seq<Correction>)
      requires Valid() && response.Some?
      requires selecting ==> |boxes| == |Mistakes()|
      modifies this`selected, this`response
      ensures Valid() && response.Some?
      ensures !selecting ==> kept == [] && selected == old(selected) && Mistakes() == old(Mistakes())
      ensures selecting ==>
        var n := |old(Mistakes())|;
        selected.Some? &&
        selected.value == Overlay(SelectAll(Resized(old(selected), n), n, selectAll), boxes) &&
        kept == Filter(old(Mistakes()), selected.value) &&
        Mistakes() == (if confirm then kept else old(Mistakes()))
    {
      kept := [];
      if selecting {
        ResizeFlags();
        ApplySelectAll(selectAll);
        ApplyCheckboxes(boxes);
        kept := Filter(response.value.jsonOutput.mistakes, selected.value);
        if confirm {
          ConfirmSelection(kept);
        }
      }
    }

    /** The body posted to re-predict: the current, possibly edited,
        `json_output` and the processed image exactly as first served. */
    function RePredictPayload(): (p: Payload)
      reads this
      requires Valid() && response.Some?
      ensures p.jsonOutput == response.value.jsonOutput
      ensures p.jsonOutput.mistakes == Mistakes()
      ensures p.imageProcBase64 == fetched.value.imageProcBase64
    {
      Payload(response.value.jsonOutput, response.value.imageProcBase64)
    }
  }

  /** Calling each toggle method twice in a row restores both modes and
      nothing else changes. On the page two presses of the select button are
      separated by a run of the open panel; `OpenThenCloseSelectPanel` is that
      trace. */
  method ToggleTwice(s: Session)
    requires s.Valid()
    modifies s`adding, s`selecting
    ensures s.Valid() && s.adding == old(s.adding) && s.selecting == old(s.selecting)
    ensures s.image == old(s.image) && s.response == old(s.response) && s.selected == old(s.selected)
    ensures s.inputs == old(s.inputs) && s.fetched == old(s.fetched)
  {
    s.ToggleAdding();
    s.ToggleAdding();
    s.ToggleSelecting();
    s.ToggleSelecting();
  }

  /** A category outside the seven names is warned about and still appended. */
  method AddUnknownCategory(s: Session, mistake: string, correction: string)
    returns (unknownCategory: bool, added: bool)
    requires s.Valid() && s.response.Some? && s.adding
    requires mistake != "" && correction != ""
    modifies s`response
    ensures s.Valid() && unknownCategory && added && s.response.Some?
    ensures s.Mistakes() == old(s.Mistakes()) + [Correction(mistake, correction, "Typo")]
  {
    unknownCategory, added := s.AddCorrection(mistake, correction, "Typo", true);
  }

  /** Opening the select panel, one run of the open panel without pressing
      its confirm button, and closing it again: the mode and the correction
      list are restored, but the flags keep what that run computed, so this is
      not a no-op on the flags. */
  method OpenThenCloseSelectPanel(s: Session, selectAll: bool, boxes: seq<Option<bool>>)
    requires s.Valid() && s.response.Some? && !s.selecting
    requires |boxes| == |s.Mistakes()|
    modifies s`selecting, s`selected, s`response
    ensures s.Valid() && !s.selecting
    ensures s.response == old(s.response)
    ensures var n := |old(s.Mistakes())|;
      s.selected == Some(Overlay(SelectAll(Resized(old(s.selected), n), n, selectAll), boxes))
  {
    s.ToggleSelecting();
    var kept := s.SelectCorrections(selectAll, boxes, false);
    s.ToggleSelecting();
  }

  /** A whole session: upload and a first answer with two mistakes; the
      select panel is drawn with fresh row widgets, then the user ticks only
      the second row, then presses the confirm button. The re-correct button
      is pressed on a later run, where the still open panel runs again first:
      its stale flags keep nothing, but the list is not replaced. */
  method TwoMistakeScenario(upload: Bytes, served: Response, m1: Correction, m2: Correction)
    returns (p: Payload)
    requires served.jsonOutput.mistakes == [m1, m2]
    ensures p.jsonOutput.mistakes == [m2]
    ensures p.jsonOutput.correctedText == served.jsonOutput.correctedText
    ensures p.imageProcBase64 == served.imageProcBase64
  {
    var s := new Session();
    s.StartCorrecting(Some(upload));
    s.FetchIfAbsent(served);
    s.ToggleSelecting();
    var kept := s.SelectCorrections(false, [None, None], false);
    assert !AllTrue(Resized(None, 2)) by { assert !Resized(None, 2)[0]; }
    assert s.selected.value == [false, false];
    kept := s.SelectCorrections(false, [Some(false), Some(true)], false);
    assert s.selected.value == [false, true];
    kept := s.SelectCorrections(false, [Some(false), Some(true)], true);
    assert s.selected.value == [false, true];
    assert Keep([m1, m2], [false, true], 1) == [];
    assert s.Mistakes() == [m2];
    assert !AllTrue(Resized(Some([false, true]), 1)) by { assert !Resized(Some([false, true]), 1)[0]; }
    kept := s.SelectCorrections(false, [None], false);
    assert s.selected.value == [false];
    assert Keep([m2], [false], 1) == [];
    assert kept == [] && s.Mistakes() == [m2];
    p := s.RePredictPayload();
  }
}
