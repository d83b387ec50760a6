/** What an indicator returns: `(points, feedback)`. The feedback takes
    the shapes the rules actually return: a list of `{message, points}`
    entries (whose message is a str, a list of str, or a nested entry
    list), a bare str, a list of str, or a dict of named checks. */
module Outcomes {
  import opened Wrappers

  datatype Body =
    | Text(text: string)
    | Lines(lines: seq<string>)
    | Nested(entries: seq<Entry>)

  datatype Entry = Entry(message: Body, points: real)

  /** One `_checks` entry of RDA-I1-02M: `points` is only set on success. */
  datatype Check = Check(id: string, title: string, critical: bool, success: bool,
                         points: Option<int>, message: string)

  datatype Feedback =
    | Entries(entries: seq<Entry>)
    | Plain(text: string)
    | Notes(notes: seq<string>)
    | Checks(checks: seq<Check>)

  /** Python floats are modelled as exact rationals. */
  datatype Outcome = Outcome(points: real, feedback: Feedback)

  /** `(points, [{"message": msg, "points": points}])`, the commonest shape. */
  function Single(points: real, msg: string): Outcome
  {
    Outcome(points, Entries([Entry(Text(msg), points)]))
  }

  /** The result holds exactly one str message that carries the score. */
  predicate IsSingle(r: Outcome)
  {
    r.feedback.Entries? && |r.feedback.entries| == 1
    && r.feedback.entries[0].message.Text? && r.feedback.entries[0].points == r.points
  }

  /** The text of the only message of a single-message result. */
  function MessageOf(r: Outcome): string
    requires IsSingle(r)
  {
    r.feedback.entries[0].message.text
  }

  /** `part / whole * 100`, a share as a percentage. */
  function Percent(part: nat, whole: nat): (r: real)
    requires whole > 0
    ensures r * whole as real == 100.0 * part as real
    ensures part <= whole ==> 0.0 <= r <= 100.0
  {
    part as real / whole as real * 100.0
  }

  /** A share is 100 exactly when the part is the whole, and 0 exactly
      when the part is empty. */
  lemma PercentBounds(part: nat, whole: nat)
    requires 0 < whole && part <= whole
    ensures Percent(part, whole) == 100.0 <==> part == whole
    ensures Percent(part, whole) == 0.0 <==> part == 0
  {
    var r := Percent(part, whole);
    if r == 100.0 {
      assert 100.0 * whole as real == 100.0 * part as real;
    }
    if part == whole {
      assert part as real / whole as real == 1.0;
    }
  }
}
