/** Values shared by every part of the TeamChat model. */
module Domain {
  datatype Option<+T> = None | Some(value: T)

  datatype Result<+T> = Ok(value: T) | Err

  /** shared/domain/message.go. The creation time is not part of the model. */
  datatype Message = Message(id: nat, conv: string, sender: string, content: string)

  /** An external call works, fails without effect, or takes effect although its answer is an error. */
  datatype Outcome = Works | FailsUndone | FailsDone

  /** The Redis room of a channel. */
  function Room(conv: string): string {
    "chat:room:" + conv
  }

  lemma RoomInjective(a: string, b: string)
    requires Room(a) == Room(b)
    ensures a == b
  {
    assert Room(a)[10..] == a && Room(b)[10..] == b;
  }

  const DIGITS: string := "0123456789"

  /** A number in decimal, as Sprintf("%d") prints it. */
  function Printed(n: nat): string {
    if n < 10 then [DIGITS[n]] else Printed(n / 10) + [DIGITS[n % 10]]
  }

  function Max(a: int, b: int): int {
    if a < b then b else a
  }

  /** Pairwise distinct elements. */
  ghost predicate Distinct<T(!new)>(s: seq<T>) {
    forall i, j :: 0 <= i < j < |s| ==> s[i] != s[j]
  }

  /** Each element below the next ones. */
  ghost predicate Ascending(s: seq<int>) {
    forall i, j :: 0 <= i < j < |s| ==> s[i] < s[j]
  }
}
