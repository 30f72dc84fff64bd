/** Reading what git status --porcelain -z prints: which tracked paths changed, and which are untracked. */
module StatusSummary {

  const NUL: char := '\0'

  predicate NoNul(text: string) {
    forall i :: 0 <= i < |text| ==> text[i] != NUL
  }

  /** A changed path as git prints it: two status letters, and for a rename or copy the name it had. */
  datatype Change =
    | Plain(status: string, path: string)
    | Moved(status: string, path: string, from: string)
    | Untracked(path: string)
    | Ignored(path: string)

  predicate HasMove(status: string) {
    'R' in status || 'C' in status
  }

  /** A rename or a copy, of the index or of the work tree. */
  lemma {:induction false} HasMoveIff(index: char, workTree: char)
    ensures HasMove([index, workTree]) <==> index == 'R' || index == 'C' || workTree == 'R' || workTree == 'C'
  {
    var status := [index, workTree];
    assert status[0] == index && status[1] == workTree;
  }

  ghost predicate WellFormed(change: Change) {
    && NoNul(change.path) && change.path != ""
    && match change
       case Plain(status, _) => |status| == 2 && NoNul(status) && !HasMove(status) && status != "??" && status != "!!"
       case Moved(status, _, from) => |status| == 2 && NoNul(status) && HasMove(status) && NoNul(from) && from != ""
       case _ => true
  }

  function StatusOf(change: Change): string {
    match change case Plain(s, _) => s case Moved(s, _, _) => s case Untracked(_) => "??" case Ignored(_) => "!!"
  }

  function RecordOf(change: Change): string {
    StatusOf(change) + " " + change.path
  }

  function PrintOne(change: Change): string {
    RecordOf(change) + [NUL] + if change.Moved? then change.from + [NUL] else ""
  }

  function Print(changes: seq<Change>): string {
    if changes == [] then "" else PrintOne(changes[0]) + Print(changes[1..])
  }

  // ---- splitNulls and statusSummary

  /** The non-empty pieces between zero characters. */
  function SplitNulls(output: string, piece: string := ""): seq<string> {
    var done := if piece == "" then [] else [piece];
    if output == "" then done
    else if output[0] == NUL then done + SplitNulls(output[1..])
    else SplitNulls(output[1..], piece + [output[0]])
  }

  datatype Summary = Summary(tracked: seq<string>, untracked: seq<string>)

  /** The summary of the records from an index on. */
  function Summarize(records: seq<string>, i: nat): Summary
    requires i <= |records|
    decreases |records| - i
  {
    if i == |records| then Summary([], [])
    else
      var record := records[i];
      if |record| < 4 || record[2] != ' ' then Summarize(records, i + 1)
      else
        var status, path := record[..2], record[3..];
        if status == "??" then
          var rest := Summarize(records, i + 1);
          rest.(untracked := [path] + rest.untracked)
        else if status == "!!" then Summarize(records, i + 1)
        else if HasMove(status) && i + 1 < |records| && records[i + 1] != "" then
          var rest := Summarize(records, i + 2);
          rest.(tracked := [path, records[i + 1]] + rest.tracked)
        else
          var rest := Summarize(records, i + 1);
          rest.(tracked := [path] + rest.tracked)
  }

  /** How many records one entry takes, and the paths it adds. */
  lemma {:induction false} SummarizeOnce(records: seq<string>, i: nat)
    requires i < |records|
    ensures var record := records[i]; var s, next := Summarize(records, i), Summarize(records, i + 1);
            if |record| < 4 || record[2] != ' ' || record[..2] == "!!" then s == next
            else if record[..2] == "??" then s.tracked == next.tracked && s.untracked == [record[3..]] + next.untracked
            else if HasMove(record[..2]) && i + 1 < |records| && records[i + 1] != "" then
              s == Summary([record[3..], records[i + 1]] + Summarize(records, i + 2).tracked, Summarize(records, i + 2).untracked)
            else s == Summary([record[3..]] + next.tracked, next.untracked)
  {
    hide HasMove;
  }

  method ReadStatus(records: seq<string>) returns (r: Summary)
    ensures r == Summarize(records, 0)
  {
    hide Summarize, HasMove;
    assert Summarize(records, |records|) == Summary([], []) by { NothingLeft(records); }
    var tracked: seq<string>, untracked: seq<string>, index := [], [], 0;
    while index < |records|
      invariant index <= |records|
      invariant tracked + Summarize(records, index).tracked == Summarize(records, 0).tracked
      invariant untracked + Summarize(records, index).untracked == Summarize(records, 0).untracked
      decreases |records| - index
    {
      SummarizeOnce(records, index);
      var record := records[index];
      if |record| < 4 || record[2] != ' ' {
        index := index + 1;
        continue;
      }
      var status, path := record[..2], record[3..];
      if status == "??" {
        untracked := untracked + [path];
        index := index + 1;
        continue;
      }
      if status == "!!" {
        index := index + 1;
        continue;
      }
      tracked := tracked + [path];
      if HasMove(status) && index + 1 < |records| && records[index + 1] != "" {
        tracked := tracked + [records[index + 1]];
        index := index + 1;
      }
      index := index + 1;
    }
    return Summary(tracked, untracked);
  }

  lemma {:induction false} NothingLeft(records: seq<string>)
    ensures Summarize(records, |records|) == Summary([], [])
  {
  }

  // ---- reading what git printed

  function TrackedOf(changes: seq<Change>): seq<string> {
    if changes == [] then []
    else
      (match changes[0] case Plain(_, p) => [p] case Moved(_, p, f) => [p, f] case _ => []) + TrackedOf(changes[1..])
  }

  function UntrackedOf(changes: seq<Change>): seq<string> {
    if changes == [] then []
    else (if changes[0].Untracked? then [changes[0].path] else []) + UntrackedOf(changes[1..])
  }

  function RecordsOfOne(change: Change): seq<string> {
    [RecordOf(change)] + if change.Moved? then [change.from] else []
  }

  function RecordsOf(changes: seq<Change>): seq<string> {
    if changes == [] then [] else RecordsOfOne(changes[0]) + RecordsOf(changes[1..])
  }

  lemma {:induction false} SplitsPiece(text: string, rest: string, piece: string)
    requires NoNul(text) && piece + text != ""
    ensures SplitNulls(text + [NUL] + rest, piece) == [piece + text] + SplitNulls(rest)
  {
    var output := text + [NUL] + rest;
    if text == "" {
      assert output[0] == NUL && output[1..] == rest && piece + text == piece;
    } else {
      assert output[0] == text[0] && output[1..] == text[1..] + [NUL] + rest;
      SplitsPiece(text[1..], rest, piece + [text[0]]);
      assert piece + [text[0]] + text[1..] == piece + text;
    }
  }

  lemma {:induction false} SplitsOne(c: Change, rest: string)
    requires WellFormed(c)
    ensures SplitNulls(PrintOne(c) + rest) == RecordsOfOne(c) + SplitNulls(rest)
  {
    hide SplitNulls;
    var record := RecordOf(c);
    assert NoNul(record) && record != "" && "" + record == record;
    if c.Moved? {
      assert "" + c.from == c.from;
      SplitsPiece(record, c.from + [NUL] + rest, "");
      SplitsPiece(c.from, rest, "");
      assert PrintOne(c) + rest == record + [NUL] + (c.from + [NUL] + rest);
      assert [record] + ([c.from] + SplitNulls(rest)) == RecordsOfOne(c) + SplitNulls(rest);
    } else {
      SplitsPiece(record, rest, "");
      assert PrintOne(c) + rest == record + [NUL] + rest;
    }
  }

  lemma {:induction false} SplitsPrint(changes: seq<Change>)
    requires forall i :: 0 <= i < |changes| ==> WellFormed(changes[i])
    ensures SplitNulls(Print(changes)) == RecordsOf(changes)
  {
    hide PrintOne, RecordsOfOne, WellFormed;
    if changes != [] {
      SplitsPrint(changes[1..]);
      SplitsOne(changes[0], Print(changes[1..]));
    }
  }

  lemma {:induction false} RecordReads(change: Change)
    requires WellFormed(change)
    ensures var record := RecordOf(change); |record| >= 4 && record[2] == ' ' && record[..2] == StatusOf(change) && record[3..] == change.path
  {
    var record := RecordOf(change);
    assert record == StatusOf(change) + " " + change.path;
  }

  /** Records after an index do not depend on those before it. */
  lemma {:induction false} SummarizeFrom(before: seq<string>, records: seq<string>, i: nat)
    requires i <= |records|
    ensures Summarize(before + records, |before| + i) == Summarize(records, i)
    decreases |records| - i
  {
    if i < |records| {
      assert (before + records)[|before| + i] == records[i];
      SummarizeFrom(before, records, i + 1);
      if i + 1 < |records| {
        assert (before + records)[|before| + i + 1] == records[i + 1];
        SummarizeFrom(before, records, i + 2);
      }
    }
  }

  lemma {:induction false} SummarizesRecords(changes: seq<Change>)
    requires forall i :: 0 <= i < |changes| ==> WellFormed(changes[i])
    ensures Summarize(RecordsOf(changes), 0) == Summary(TrackedOf(changes), UntrackedOf(changes))
  {
    if changes != [] {
      var c, rest := changes[0], RecordsOf(changes[1..]);
      SummarizesRecords(changes[1..]);
      assert WellFormed(c);
      RecordReads(c);
      var before := RecordsOfOne(c);
      assert RecordsOf(changes) == before + rest;
      SummarizeFrom(before, rest, 0);
    }
  }

  /** Every list of changes is read back: no old name of a rename is taken for a record, and ignored files are left out. */
  lemma {:induction false} StatusReadsBack(changes: seq<Change>)
    requires forall i :: 0 <= i < |changes| ==> WellFormed(changes[i])
    ensures Summarize(SplitNulls(Print(changes)), 0) == Summary(TrackedOf(changes), UntrackedOf(changes))
  {
    SplitsPrint(changes);
    SummarizesRecords(changes);
  }

  /** The worktree is called clean exactly when git printed nothing but ignored files. */
  lemma {:induction false} CleanIffOnlyIgnored(changes: seq<Change>)
    requires forall i :: 0 <= i < |changes| ==> WellFormed(changes[i])
    ensures Summarize(SplitNulls(Print(changes)), 0) == Summary([], []) <==> forall i :: 0 <= i < |changes| ==> changes[i].Ignored?
  {
    StatusReadsBack(changes);
    OnlyIgnored(changes);
  }

  lemma {:induction false} OnlyIgnored(changes: seq<Change>)
    ensures TrackedOf(changes) == [] && UntrackedOf(changes) == [] <==> forall i :: 0 <= i < |changes| ==> changes[i].Ignored?
  {
    if changes != [] {
      OnlyIgnored(changes[1..]);
      assert (forall i :: 0 <= i < |changes| ==> changes[i].Ignored?)
        <==> changes[0].Ignored? && forall i :: 0 <= i < |changes[1..]| ==> changes[1..][i].Ignored? by {
        assert forall i :: 1 <= i < |changes| ==> changes[i] == changes[1..][i - 1];
      }
    }
  }
}
