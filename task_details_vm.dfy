/**
 * The teacher's task-details screen state: loading a task with its students
 * and grades, editing a grade, saving the grades, and deleting the task.
 * Each asynchronous step is a completion method that receives the backend's
 * answer as a parameter; `onDoneCalls` counts how often the screen's
 * "done" callback has run.
 */
module TaskDetailsVm {
  import opened Strings
  import opened TaskModels
  import opened TeacherTasksRepo

  /** `TeacherTaskDetailsUiState`. */
  datatype DetailsState = DetailsState(
    loading: bool,
    deleting: bool,
    savingGrades: bool,
    task: Option<TeacherTaskDetails>,
    students: seq<StudentRow>,
    grades: map<string, string>,
    error: string)

  const InitialDetails := DetailsState(true, false, false, None, [], map[], "")

  class TeacherTaskDetailsViewModel {
    const taskId: string
    var ui: DetailsState
    var onDoneCalls: nat

    constructor (taskId: string)
      ensures this.taskId == taskId && ui == InitialDetails && onDoneCalls == 0
    {
      this.taskId := taskId;
      ui := InitialDetails;
      onDoneCalls := 0;
    }

    /** `load()`, before the backend answers. */
    method Load()
      modifies this
      ensures ui == old(ui).(loading := true, error := "")
      ensures onDoneCalls == old(onDoneCalls)
    {
      ui := ui.(loading := true, error := "");
    }

    /** The task and its students arrived: they replace the shown task,
        students and grades together. */
    method Loaded(task: TeacherTaskDetails, bundle: TaskStudentsBundle)
      modifies this
      ensures ui == old(ui).(loading := false, task := Some(task), students := bundle.students,
                             grades := bundle.grades, error := "")
      ensures onDoneCalls == old(onDoneCalls)
    {
      ui := ui.(loading := false, task := Some(task), students := bundle.students, grades := bundle.grades, error := "");
    }

    /** Loading failed: the earlier task, students and grades stay. */
    method LoadFailed(message: Option<string>)
      modifies this
      ensures ui == old(ui).(loading := false, error := OrElse(message, "Failed to load task"))
      ensures onDoneCalls == old(onDoneCalls)
    {
      ui := ui.(loading := false, error := OrElse(message, "Failed to load task"));
    }

    /** `setGrade(uid, text)`: that student's grade becomes the digits of what
        was typed; nothing else changes, not even the error. */
    method SetGrade(studentUid: string, gradeText: string)
      modifies this
      ensures ui == old(ui).(grades := old(ui).grades[studentUid := Digits(gradeText)])
      ensures AllDigits(ui.grades[studentUid])
      ensures forall u :: u != studentUid ==> (u in ui.grades <==> u in old(ui).grades)
      ensures forall u :: u != studentUid && u in ui.grades ==> ui.grades[u] == old(ui).grades[u]
      ensures onDoneCalls == old(onDoneCalls)
    {
      ui := ui.(grades := ui.grades[studentUid := Digits(gradeText)]);
    }

    /** `saveGrades()`, up to the backend call: nothing happens while no task
        is loaded; otherwise saving starts, the error is cleared, and the
        grades to store are the ones shown. */
    method SaveGrades() returns (request: Option<map<string, string>>)
      modifies this
      ensures old(ui).task.None? ==> request.None? && ui == old(ui)
      ensures old(ui).task.Some? ==> request == Some(old(ui).grades) && ui == old(ui).(savingGrades := true, error := "")
      ensures onDoneCalls == old(onDoneCalls)
    {
      if ui.task.None? {
        request := None;
        return;
      }
      request := Some(ui.grades);
      ui := ui.(savingGrades := true, error := "");
    }

    /** The grades were stored. */
    method GradesSaved()
      modifies this
      ensures ui == old(ui).(savingGrades := false)
      ensures onDoneCalls == old(onDoneCalls)
    {
      ui := ui.(savingGrades := false);
    }

    /** Storing the grades failed. */
    method GradesSaveFailed(message: Option<string>)
      modifies this
      ensures ui == old(ui).(savingGrades := false, error := OrElse(message, "Failed to save grades"))
      ensures onDoneCalls == old(onDoneCalls)
    {
      ui := ui.(savingGrades := false, error := OrElse(message, "Failed to save grades"));
    }

    /** `deleteTask(onDone)`, up to the backend call. */
    method DeleteTask()
      modifies this
      ensures ui == old(ui).(deleting := true, error := "")
      ensures onDoneCalls == old(onDoneCalls)
    {
      ui := ui.(deleting := true, error := "");
    }

    /** The task was deleted: deleting ends and the callback runs once. */
    method Deleted()
      modifies this
      ensures ui == old(ui).(deleting := false)
      ensures onDoneCalls == old(onDoneCalls) + 1
    {
      ui := ui.(deleting := false);
      onDoneCalls := onDoneCalls + 1;
    }

    /** Deleting failed: deleting ends with the failure's message and the
        callback does not run. */
    method DeleteFailed(message: Option<string>)
      modifies this
      ensures ui == old(ui).(deleting := false, error := OrElse(message, "Failed to delete task"))
      ensures onDoneCalls == old(onDoneCalls)
    {
      ui := ui.(deleting := false, error := OrElse(message, "Failed to delete task"));
    }
  }

  /** Without a task a grade save does nothing; with one, whatever the
      backend answers, it ends with saving off, and only a failure leaves an
      error. */
  method SaveGradesRound(vm: TeacherTaskDetailsViewModel, succeeds: bool, message: Option<string>)
    returns (request: Option<map<string, string>>)
    modifies vm
    ensures request.None? <==> old(vm.ui).task.None?
    ensures request.None? ==> vm.ui == old(vm.ui)
    ensures request.Some? ==> !vm.ui.savingGrades
    ensures request.Some? && succeeds ==> vm.ui.error == ""
    ensures request.Some? && !succeeds ==> vm.ui.error == OrElse(message, "Failed to save grades")
    ensures vm.ui.grades == old(vm.ui.grades) && vm.ui.task == old(vm.ui.task)
  {
    request := vm.SaveGrades();
    if request.Some? {
      if succeeds {
        vm.GradesSaved();
      } else {
        vm.GradesSaveFailed(message);
      }
    }
  }

  /** A delete runs the callback exactly when it succeeds, and ends with
      deleting off either way. */
  method DeleteRound(vm: TeacherTaskDetailsViewModel, succeeds: bool, message: Option<string>)
    modifies vm
    ensures !vm.ui.deleting
    ensures vm.onDoneCalls == old(vm.onDoneCalls) + (if succeeds then 1 else 0)
    ensures succeeds ==> vm.ui.error == ""
    ensures !succeeds ==> vm.ui.error == OrElse(message, "Failed to delete task")
  {
    vm.DeleteTask();
    if succeeds {
      vm.Deleted();
    } else {
      vm.DeleteFailed(message);
    }
  }
}
