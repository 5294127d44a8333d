/**
 * The submission tables of storage/repository/submission_repository.py as an
 * object whose fields the three statements update in place: the Submission
 * table as a map from Identifier to row, the SubmissionLogEntry table as a
 * sequence of rows in insertion order, and the PiptUser table as a read-only
 * map from username to user id. The database clock is a parameter.
 */
module SubmissionRepository {
  import opened Wrappers

  /** SubmissionStatus, stored as its value string. */
  datatype SubmissionStatus = Failed | InProgress | Successful
  {
    function Value(): string
    {
      match this
      case Failed => "Failed"
      case InProgress => "In Progress"
      case Successful => "Successful"
    }
  }

  /** SubmissionMessageType, stored as its value string. */
  datatype SubmissionMessageType = Error | Info | Warning
  {
    function Value(): string
    {
      match this
      case Error => "Error"
      case Info => "Info"
      case Warning => "Warning"
    }
  }

  /** The status whose value is the given string (Python's SubmissionStatus(value)). */
  function StatusOfValue(value: string): Option<SubmissionStatus>
  {
    if value == "Failed" then Some(Failed)
    else if value == "In Progress" then Some(InProgress)
    else if value == "Successful" then Some(Successful)
    else None
  }

  /** The message type whose value is the given string. */
  function MessageTypeOfValue(value: string): Option<SubmissionMessageType>
  {
    if value == "Error" then Some(Error)
    else if value == "Info" then Some(Info)
    else if value == "Warning" then Some(Warning)
    else None
  }

  /** Each status value reads back as that status, and only those strings are status values. */
  lemma StatusValueRoundTrip(status: SubmissionStatus, value: string)
    ensures StatusOfValue(status.Value()) == Some(status)
    ensures StatusOfValue(value) == Some(status) ==> status.Value() == value
  {
  }

  /** Each message type value reads back as that type, and only those strings are type values. */
  lemma MessageTypeValueRoundTrip(messageType: SubmissionMessageType, value: string)
    ensures MessageTypeOfValue(messageType.Value()) == Some(messageType)
    ensures MessageTypeOfValue(value) == Some(messageType) ==> messageType.Value() == value
  {
  }

  /** Distinct members store distinct strings. */
  lemma ValuesInjective(a: SubmissionStatus, b: SubmissionStatus, x: SubmissionMessageType, y: SubmissionMessageType)
    ensures a.Value() == b.Value() ==> a == b
    ensures x.Value() == y.Value() ==> x == y
  {
    StatusValueRoundTrip(a, b.Value());
    MessageTypeValueRoundTrip(x, y.Value());
  }

  type Timestamp = int

  /**
   * A row of Submission: its generated key Submission_Id, the Identifier, the
   * submitter's PiptUser_Id (None when the username lookup finds no row), the
   * status value, StartedAt and FinishedAt (None until set).
   */
  datatype Submission = Submission(
    id: nat,
    identifier: string,
    submitterId: Option<nat>,
    status: string,
    startedAt: Timestamp,
    finishedAt: Option<Timestamp>)

  /** A row of SubmissionLogEntry: Submission_Id (None when no submission has the identifier), Message and the type value. */
  datatype LogEntry = LogEntry(submissionId: Option<nat>, message: string, messageType: string)

  /** The row for an identifier after the UPDATE has set its status and finish time. */
  function Finished(row: Submission, status: SubmissionStatus, now: Timestamp): (r: Submission)
    ensures r.status == status.Value() && r.finishedAt == Some(now)
    ensures r.(status := row.status, finishedAt := row.finishedAt) == row
  {
    row.(status := status.Value(), finishedAt := Some(now))
  }

  class SubmissionDatabase {
    /** The Submission table, keyed by Identifier. */
    var submissions: map<string, Submission>
    /** The SubmissionLogEntry table, oldest entry first. */
    var logEntries: seq<LogEntry>
    /** The next value the Submission_Id column generates. */
    var nextSubmissionId: nat
    /** PiptUser: username to PiptUser_Id. */
    const users: map<string, nat>

    /** Each row is filed under its own Identifier and has its own Submission_Id, below the next one. */
    ghost predicate Valid()
      reads this
    {
      && (forall k :: k in submissions ==> submissions[k].identifier == k && submissions[k].id < nextSubmissionId)
      && (forall k, l :: k in submissions && l in submissions && k != l ==> submissions[k].id != submissions[l].id)
    }

    constructor (users: map<string, nat>)
      ensures Valid()
      ensures this.users == users
      ensures submissions == map[] && logEntries == [] && nextSubmissionId == 1
    {
      this.users := users;
      submissions := map[];
      logEntries := [];
      nextSubmissionId := 1;
    }

    /** The PiptUser_Id of a username, or NULL. */
    function UserId(username: string): Option<nat>
      reads this
    {
      if username in users then Some(users[username]) else None
    }

    /** The Submission_Id of the row with an identifier, or NULL. */
    function SubmissionId(identifier: string): Option<nat>
      reads this
    {
      if identifier in submissions then Some(submissions[identifier].id) else None
    }

    /**
     * create_submission: insert one row with the identifier, the submitter's
     * user id, status "In Progress", the start time and no finish time; the
     * identifier is a fresh uuid4 string.
     */
    method CreateSubmission(identifier: string, submitter: string, now: Timestamp)
      requires Valid()
      requires identifier !in submissions
      modifies this
      ensures Valid()
      ensures submissions == old(submissions)[identifier :=
        Submission(old(nextSubmissionId), identifier, UserId(submitter), InProgress.Value(), now, None)]
      ensures logEntries == old(logEntries)
      ensures SubmissionId(identifier) == Some(old(nextSubmissionId))
      ensures forall k :: k in old(submissions) ==> SubmissionId(k) == old(SubmissionId(k))
    {
      var row := Submission(nextSubmissionId, identifier, UserId(submitter), InProgress.Value(), now, None);
      submissions := submissions[identifier := row];
      nextSubmissionId := nextSubmissionId + 1;
    }

    /**
     * update_submission: set status and FinishedAt on the row whose Identifier
     * matches, whatever its current status; every other row and field, and the
     * log, are untouched, and an unknown identifier changes nothing.
     */
    method UpdateSubmission(identifier: string, status: SubmissionStatus, now: Timestamp)
      requires Valid()
      modifies this`submissions
      ensures Valid()
      ensures submissions.Keys == old(submissions).Keys
      ensures forall k :: k in submissions ==>
        submissions[k] == if k == identifier then Finished(old(submissions)[k], status, now) else old(submissions)[k]
      ensures identifier !in old(submissions) ==> submissions == old(submissions)
    {
      if identifier in submissions {
        submissions := submissions[identifier := Finished(submissions[identifier], status, now)];
      }
    }

    /**
     * log_submission_message: append exactly one entry, linked to the
     * Submission_Id of the row with the identifier, carrying the message and
     * the type's value; earlier entries and the Submission rows are untouched.
     */
    method LogSubmissionMessage(identifier: string, message: string, messageType: SubmissionMessageType)
      requires Valid()
      modifies this`logEntries
      ensures Valid()
      ensures logEntries == old(logEntries) + [LogEntry(SubmissionId(identifier), message, messageType.Value())]
    {
      logEntries := logEntries + [LogEntry(SubmissionId(identifier), message, messageType.Value())];
    }

    /** Rows whose Submission_Id is the one an entry is linked to: at most one, by Valid. */
    lemma LinkedRowIsUnique(identifier: string, other: string)
      requires Valid()
      requires other in submissions && SubmissionId(identifier) == Some(submissions[other].id)
      ensures other == identifier
    {
    }
  }
}
