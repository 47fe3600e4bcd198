/** The records of the fitness-course domain. Every cross-record reference (`trainerId`,
    `courseId`, `clientId`, `sessionId`) is a plain string id; dates are integer timestamps;
    the numeric fields carry no declared bounds beyond being natural numbers. */
module Types {
  import opened Seqs

  type Id = string

  /** A user's role: exactly one of the three. */
  datatype Role = Client | Trainer | Admin

  /** A course's difficulty: exactly one of the three. */
  datatype Difficulty = Beginner | Intermediate | Advanced

  datatype User = User(id: Id, name: string, email: string, role: Role, avatar: Option<string>)

  datatype Course = Course(
    id: Id,
    title: string,
    description: string,
    trainer: string,
    trainerId: Id,
    duration: string,
    difficulty: Difficulty,
    maxCapacity: nat,
    currentEnrollment: nat,
    schedule: string,
    objectives: seq<string>,
    image: Option<string>)

  /** `attendance` is a list of client ids, not a set: the same id may appear twice. */
  datatype Session = Session(
    id: Id,
    courseId: Id,
    date: int,
    time: string,
    exercises: seq<string>,
    attendance: seq<Id>,
    notes: Option<string>)

  datatype Enrollment = Enrollment(
    id: Id,
    clientId: Id,
    courseId: Id,
    enrolledAt: int,
    progress: nat,
    sessionsAttended: nat,
    totalSessions: nat)

  datatype ProgressRecord = ProgressRecord(
    id: Id,
    clientId: Id,
    sessionId: Id,
    courseId: Id,
    date: int,
    performance: nat,
    notes: Option<string>)

  /** The string a role is stored as. */
  function RoleName(r: Role): string
  {
    match r
    case Client => "client"
    case Trainer => "trainer"
    case Admin => "admin"
  }

  /** Reads a stored role string; any other string is not a role. */
  function ParseRole(s: string): (r: Option<Role>)
    ensures r.Some? ==> RoleName(r.value) == s
    ensures r.None? ==> forall x :: RoleName(x) != s
  {
    if s == "client" then Some(Client)
    else if s == "trainer" then Some(Trainer)
    else if s == "admin" then Some(Admin)
    else None
  }

  /** The string a difficulty is stored and displayed as. */
  function DifficultyName(d: Difficulty): string
  {
    match d
    case Beginner => "Beginner"
    case Intermediate => "Intermediate"
    case Advanced => "Advanced"
  }

  /** Reads a stored difficulty string; any other string is not a difficulty. */
  function ParseDifficulty(s: string): (r: Option<Difficulty>)
    ensures r.Some? ==> DifficultyName(r.value) == s
    ensures r.None? ==> forall x :: DifficultyName(x) != s
  {
    if s == "Beginner" then Some(Beginner)
    else if s == "Intermediate" then Some(Intermediate)
    else if s == "Advanced" then Some(Advanced)
    else None
  }

  // Id accessors, passed to the generic by-id operations of the store.
  function CourseId(c: Course): Id { c.id }
  function SessionId(s: Session): Id { s.id }
  function EnrollmentId(e: Enrollment): Id { e.id }
}
