/** The readiness of a room member and the user record (mainserver/user.go). */
module Users {
  import opened GoInts

  /** UserState: an int32 enum whose five constants are the only values ever produced. */
  datatype UserState = UnReady | Ready | Connecting | InGame | Watching {

    /** The int32 constant Go declares for this state. */
    function Value(): int32 {
      match this
      case UnReady => 0
      case Ready => 1
      case Connecting => 2
      case InGame => 3
      case Watching => 4
    }
  }

  datatype User = User(userID: string)

  /** The five constants are 0..4 and pairwise distinct, and UnReady is the one Go's zero value denotes. */
  lemma UserStateValues(s: UserState, t: UserState)
    ensures 0 <= s.Value() <= 4
    ensures s.Value() == t.Value() <==> s == t
    ensures s.Value() == 0 <==> s == UnReady
  {
  }
}
