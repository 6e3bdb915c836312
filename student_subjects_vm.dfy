/**
 * The student's subject-choice screen state: the catalogue of subjects, the
 * set of chosen ones, toggling one subject or all of them, and saving the
 * choice.  Each asynchronous step is a completion method that receives the
 * repository's answer as a parameter; `onDoneCalls` counts how often the
 * screen's "done" callback has run.
 */
module StudentSubjectsVm {
  import opened Strings
  import opened Lists
  import opened StudentSubjectRepo

  /** `StudentSubjectsUiState`. */
  datatype SubjectsState = SubjectsState(
    loading: bool,
    allSubjects: seq<StudentSubjectItem>,
    selectedSubjects: set<string>,
    error: Option<string>)

  /** The state the view model starts in. */
  const InitialSubjects := SubjectsState(true, [], {}, None)

  // ---------------------------------------------------------------------------
  // Selection rules

  /** The distinct subject names of the catalogue. */
  function AllNames(all: seq<StudentSubjectItem>): (r: set<string>)
    ensures forall x :: x in r <==> exists i :: 0 <= i < |all| && all[i].subjectName == x
  {
    set i | 0 <= i < |all| :: all[i].subjectName
  }

  /** `toggleSelectAll()` on a selection: when the selection has as many
      subjects as the catalogue has names (and there is at least one), it is
      emptied; otherwise it becomes every name of the catalogue. */
  function SelectAll(all: seq<StudentSubjectItem>, selected: set<string>): (r: set<string>)
    ensures r == {} || r == AllNames(all)
    ensures r == {} <==> all == [] || |selected| == |AllNames(all)|
  {
    var names := AllNames(all);
    assert all != [] ==> all[0].subjectName in names;
    if |selected| == |names| && |names| > 0 then {} else names
  }

  /** Pressing "select all" twice on a non-empty catalogue: a selection that
      was not full-sized ends empty, and one that was ends holding every
      subject. */
  lemma SelectAllTwice(all: seq<StudentSubjectItem>, selected: set<string>)
    requires all != []
    ensures SelectAll(all, SelectAll(all, selected)) == (if |selected| == |AllNames(all)| then AllNames(all) else {})
  {
  }

  /** The comparison is by size only: a selection holding a subject the
      catalogue no longer offers, and missing one it does, is cleared rather
      than completed. */
  lemma SizeNotEquality()
    ensures var all := [StudentSubjectItem("Math", None), StudentSubjectItem("Physics", None)];
            SelectAll(all, {"Math", "Art"}) == {} && "Physics" !in {"Math", "Art"}
  {
    var all := [StudentSubjectItem("Math", None), StudentSubjectItem("Physics", None)];
    assert all[0].subjectName == "Math" && all[1].subjectName == "Physics";
    assert "Math" != "Physics" && "Math" != "Art";
    assert AllNames(all) == {"Math", "Physics"};
  }

  class StudentSubjectsViewModel {
    var ui: SubjectsState
    var onDoneCalls: nat

    constructor ()
      ensures ui == InitialSubjects && onDoneCalls == 0
    {
      ui := InitialSubjects;
      onDoneCalls := 0;
    }

    /** `refresh()`, before the repository answers. */
    method Refresh()
      modifies this
      ensures ui == old(ui).(loading := true, error := None)
      ensures onDoneCalls == old(onDoneCalls)
    {
      ui := ui.(loading := true, error := None);
    }

    /** The catalogue and the saved choice arrived: they replace the whole
        state. */
    method Refreshed(all: seq<StudentSubjectItem>, selected: seq<string>)
      modifies this
      ensures ui == SubjectsState(false, all, ui.selectedSubjects, None)
      ensures forall x :: x in ui.selectedSubjects <==> x in selected
      ensures onDoneCalls == old(onDoneCalls)
    {
      ui := SubjectsState(false, all, (set x | x in selected), None);
    }

    /** Loading failed: the catalogue and the choice stay. */
    method RefreshFailed(message: Option<string>)
      modifies this
      ensures ui == old(ui).(loading := false, error := Some(OrElse(message, "Failed to load subjects")))
      ensures onDoneCalls == old(onDoneCalls)
    {
      ui := ui.(loading := false, error := Some(OrElse(message, "Failed to load subjects")));
    }

    /** `toggleSubject(name)`: only the selection changes. */
    method ToggleSubject(name: string)
      modifies this
      ensures ui == old(ui).(selectedSubjects := Toggled(old(ui).selectedSubjects, name))
      ensures onDoneCalls == old(onDoneCalls)
    {
      var current := ui.selectedSubjects;
      if name in current {
        current := current - {name};
      } else {
        current := current + {name};
      }
      ui := ui.(selectedSubjects := current);
    }

    /** `toggleSelectAll()`: only the selection changes. */
    method ToggleSelectAll()
      modifies this
      ensures ui == old(ui).(selectedSubjects := SelectAll(old(ui).allSubjects, old(ui).selectedSubjects))
      ensures onDoneCalls == old(onDoneCalls)
    {
      var all := AllNames(ui.allSubjects);
      if |ui.selectedSubjects| == |all| && |all| > 0 {
        ui := ui.(selectedSubjects := {});
      } else {
        ui := ui.(selectedSubjects := all);
      }
    }

    /** `saveSelection(onDone)`, up to the repository call: the list sent
        holds every chosen subject once, ordered by lower-cased name; the
        screen starts loading. */
    method SaveSelection() returns (request: seq<string>)
      modifies this
      ensures NoDuplicates(request)
      ensures forall x :: x in request <==> x in old(ui).selectedSubjects
      ensures SortedBy(request, LowerLe)
      ensures ui == old(ui).(loading := true, error := None)
      ensures onDoneCalls == old(onDoneCalls)
    {
      var listed := ListOf(ui.selectedSubjects);
      request := SortBy(listed, LowerLe);
      SortedByLower(listed);
      SameMembers(listed, request);
      PermutationNoDuplicates(listed, request);
      ui := ui.(loading := true, error := None);
    }

    /** The choice was stored: loading ends and the callback runs once. */
    method SelectionSaved()
      modifies this
      ensures ui == old(ui).(loading := false)
      ensures onDoneCalls == old(onDoneCalls) + 1
    {
      ui := ui.(loading := false);
      onDoneCalls := onDoneCalls + 1;
    }

    /** Storing the choice failed: loading ends with the failure's message
        and the callback does not run. */
    method SelectionSaveFailed(message: Option<string>)
      modifies this
      ensures ui == old(ui).(loading := false, error := Some(OrElse(message, "Failed to save subjects")))
      ensures onDoneCalls == old(onDoneCalls)
    {
      ui := ui.(loading := false, error := Some(OrElse(message, "Failed to save subjects")));
    }
  }

  /** Toggling one subject twice leaves the whole screen state as it was. */
  method ToggleTwiceRound(vm: StudentSubjectsViewModel, name: string)
    modifies vm
    ensures vm.ui == old(vm.ui) && vm.onDoneCalls == old(vm.onDoneCalls)
  {
    vm.ToggleSubject(name);
    vm.ToggleSubject(name);
    ToggleTwice(old(vm.ui).selectedSubjects, name);
  }

  /** One save from start to end: the callback runs exactly when the
      repository succeeds, and loading is off afterwards either way; the
      choice itself is untouched. */
  method SaveRound(vm: StudentSubjectsViewModel, succeeds: bool, message: Option<string>)
    returns (request: seq<string>)
    modifies vm
    ensures forall x :: x in request <==> x in old(vm.ui).selectedSubjects
    ensures !vm.ui.loading
    ensures vm.ui.selectedSubjects == old(vm.ui).selectedSubjects && vm.ui.allSubjects == old(vm.ui).allSubjects
    ensures vm.onDoneCalls == old(vm.onDoneCalls) + (if succeeds then 1 else 0)
    ensures succeeds <==> vm.ui.error.None?
  {
    request := vm.SaveSelection();
    if succeeds {
      vm.SelectionSaved();
    } else {
      vm.SelectionSaveFailed(message);
    }
  }
}
