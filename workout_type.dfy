/**
 * The workout type: the enum and `create_crm_string` of src/workout_data/workout.rs, and
 * `ALL`, `Default` and `Display` of src/gui/workout_type.rs.
 */
module WorkoutTypes {

  datatype WorkoutType = Watts | PercentOfFTP

  /** `WorkoutType::ALL`: every workout type, once, in declaration order. */
  const All: seq<WorkoutType> := [Watts, PercentOfFTP]

  /** `ALL` lists every workout type exactly once. */
  lemma {:induction false} AllListsEachOnce(t: WorkoutType)
    ensures t in All
    ensures |All| == 2 && All[0] != All[1]
  {
  }

  /** `Default for WorkoutType`. */
  function Default(): (t: WorkoutType)
    ensures t == All[0]
  {
    Watts
  }

  /** `Display for WorkoutType`: a label for the user; distinct types get distinct labels. */
  function Display(t: WorkoutType): (s: string)
    ensures t == Watts ==> s == "Watts"
    ensures t == PercentOfFTP ==> s == "Percentage of FTP"
  {
    match t
    case Watts => "Watts"
    case PercentOfFTP => "Percentage of FTP"
  }

  /** `create_crm_string`: the unit line of the course header. */
  function CreateCrmString(t: WorkoutType): (s: string)
    ensures t == Watts ==> s == "MINUTES WATTS"
    ensures t == PercentOfFTP ==> s == "MINUTES PERCENTAGE"
    ensures '[' !in s && '\n' !in s && '=' !in s
  {
    match t
    case Watts => "MINUTES WATTS"
    case PercentOfFTP => "MINUTES PERCENTAGE"
  }

  /** The unit line and the label each determine the workout type. */
  lemma {:induction false} LabelsDetermineType(a: WorkoutType, b: WorkoutType)
    ensures CreateCrmString(a) == CreateCrmString(b) ==> a == b
    ensures Display(a) == Display(b) ==> a == b
  {
    if a != b {
      assert CreateCrmString(a)[8] != CreateCrmString(b)[8];
      assert Display(a)[0] != Display(b)[0];
    }
  }
}
