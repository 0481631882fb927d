/**
  * The two settings of variables.py that are parsed rather than read as
  * they are: `WOL_MACHINES`, `name:mac|name:mac` unpacked into a dictionary
  * by `__unpack_wol`, and `LDAP_ADMIN_GROUPS`, a `|`-separated list.
  */
module Variables {
  import opened Basics

  // ---------------------------------------------------------------------------
  // `__unpack_wol`

  /** The machine name of a segment: the text before its first colon. */
  function Name(segment: string): string {
    segment[..IndexOf(segment, ':')]
  }

  /** The address of a segment: everything after its first colon, colons included. */
  function Mac(segment: string): string
    requires IndexOf(segment, ':') < |segment|
  {
    segment[IndexOf(segment, ':') + 1..]
  }

  /**
    * `machine.split(":", 1)` and its two items: the name and the address,
    * or `IndexError` from `machine[1]` when there is no colon.
    */
  function SplitMachine(segment: string): (r: Result<(string, string), PyError>)
    ensures r.Err? <==> ':' !in segment
    ensures r.Err? ==> r.error == IndexError
    ensures r.Ok? ==> r.value.0 + ":" + r.value.1 == segment && ':' !in r.value.0
  {
    var i := IndexOf(segment, ':');
    if i == |segment| then Err(IndexError)
    else
      assert segment == segment[..i] + ":" + segment[i + 1..];
      Ok((Name(segment), Mac(segment)))
  }

  /** The dictionary `acc` after the loop has stored each of `segments`, in order. */
  function UnpackFrom(acc: map<string, string>, segments: seq<string>): Result<map<string, string>, PyError>
    decreases |segments|
  {
    if segments == [] then Ok(acc)
    else match SplitMachine(segments[0])
      case Err(e) => Err(e)
      case Ok((name, mac)) => UnpackFrom(acc[name := mac], segments[1..])
  }

  /** `__unpack_wol(wol)`. */
  function Unpacked(wol: string): Result<map<string, string>, PyError> {
    UnpackFrom(map[], Split(wol, '|'))
  }

  /** The loop raises `IndexError` exactly when some segment has no colon. */
  lemma {:induction false} UnpackFails(acc: map<string, string>, segments: seq<string>)
    ensures var r := UnpackFrom(acc, segments);
            && (r.Err? <==> exists i :: 0 <= i < |segments| && ':' !in segments[i])
            && (r.Err? ==> r.error == IndexError)
    decreases |segments|
  {
    if segments != [] {
      UnpackFails(acc[Name(segments[0]) := if ':' in segments[0] then Mac(segments[0]) else ""], segments[1..]);
      assert forall i :: 0 < i < |segments| ==> segments[i] == segments[1..][i - 1];
    }
  }

  /** The keys are those of `acc` and the names of the segments. */
  lemma {:induction false} UnpackKeys(acc: map<string, string>, segments: seq<string>)
    requires UnpackFrom(acc, segments).Ok?
    ensures forall k :: k in UnpackFrom(acc, segments).value <==>
              k in acc || exists i :: 0 <= i < |segments| && Name(segments[i]) == k
    decreases |segments|
  {
    if segments != [] {
      UnpackKeys(acc[Name(segments[0]) := Mac(segments[0])], segments[1..]);
      assert forall i :: 0 < i < |segments| ==> segments[i] == segments[1..][i - 1];
    }
  }

  /** A key that no segment names keeps its value from `acc`. */
  lemma {:induction false} UnpackKeepsOthers(acc: map<string, string>, segments: seq<string>, k: string)
    requires UnpackFrom(acc, segments).Ok?
    requires k in acc && forall i :: 0 <= i < |segments| ==> Name(segments[i]) != k
    ensures k in UnpackFrom(acc, segments).value && UnpackFrom(acc, segments).value[k] == acc[k]
    decreases |segments|
  {
    if segments != [] {
      assert forall i :: 0 < i < |segments| ==> segments[i] == segments[1..][i - 1];
      UnpackKeepsOthers(acc[Name(segments[0]) := Mac(segments[0])], segments[1..], k);
    }
  }

  /** Every segment of a successful unpacking has a colon. */
  lemma AllHaveColon(acc: map<string, string>, segments: seq<string>)
    requires UnpackFrom(acc, segments).Ok?
    ensures forall i :: 0 <= i < |segments| ==> ':' in segments[i]
  {
    UnpackFails(acc, segments);
  }

  /**
    * The name of segment `i` is bound to its address when no later segment
    * has that name: a later segment with the same name overwrites it.
    */
  lemma {:induction false} UnpackLastWins(acc: map<string, string>, segments: seq<string>, i: nat)
    requires UnpackFrom(acc, segments).Ok?
    requires i < |segments| && ':' in segments[i]
    requires forall j :: i < j < |segments| ==> Name(segments[j]) != Name(segments[i])
    ensures Name(segments[i]) in UnpackFrom(acc, segments).value
    ensures UnpackFrom(acc, segments).value[Name(segments[i])] == Mac(segments[i])
    decreases |segments|
  {
    var rest := segments[1..];
    var acc' := acc[Name(segments[0]) := Mac(segments[0])];
    assert UnpackFrom(acc, segments) == UnpackFrom(acc', rest);
    if i == 0 {
      forall j | 0 <= j < |rest|
        ensures Name(rest[j]) != Name(segments[0])
      {
        assert rest[j] == segments[j + 1];
      }
      UnpackKeepsOthers(acc', rest, Name(segments[0]));
    } else {
      forall j | i - 1 < j < |rest|
        ensures Name(rest[j]) != Name(rest[i - 1])
      {
        assert rest[j] == segments[j + 1];
      }
      UnpackLastWins(acc', rest, i - 1);
    }
  }

  /** There are at most as many new keys as segments. */
  lemma {:induction false} UnpackCount(acc: map<string, string>, segments: seq<string>)
    requires UnpackFrom(acc, segments).Ok?
    ensures |UnpackFrom(acc, segments).value.Keys| <= |acc.Keys| + |segments|
    decreases |segments|
  {
    if segments != [] {
      var acc' := acc[Name(segments[0]) := Mac(segments[0])];
      assert acc'.Keys == acc.Keys + {Name(segments[0])};
      UnpackCount(acc', segments[1..]);
    }
  }

  /**
    * What `__unpack_wol(wol)` promises: a segment without a colon raises
    * `IndexError`; otherwise the keys are exactly the segment names, at most
    * one per `|` segment, and each is bound to the text after the first
    * colon of its last segment.
    */
  lemma UnpackedWol(wol: string)
    ensures var segments := Split(wol, '|');
            Unpacked(wol).Err? <==> exists i :: 0 <= i < |segments| && ':' !in segments[i]
    ensures Unpacked(wol).Err? ==> Unpacked(wol).error == IndexError
    ensures Unpacked(wol).Ok? ==> |Unpacked(wol).value.Keys| <= |Split(wol, '|')|
    ensures var segments := Split(wol, '|');
            Unpacked(wol).Ok? ==>
              forall k :: k in Unpacked(wol).value <==> exists i :: 0 <= i < |segments| && Name(segments[i]) == k
    ensures var segments := Split(wol, '|');
            Unpacked(wol).Ok? ==>
              forall i :: 0 <= i < |segments| && (forall j :: i < j < |segments| ==> Name(segments[j]) != Name(segments[i])) ==>
                ':' in segments[i] && Name(segments[i]) in Unpacked(wol).value && Unpacked(wol).value[Name(segments[i])] == Mac(segments[i])
  {
    var segments := Split(wol, '|');
    UnpackFails(map[], segments);
    assert Unpacked(wol) == UnpackFrom(map[], segments);
    if Unpacked(wol).Ok? {
      var empty: map<string, string> := map[];
      assert empty.Keys == {};
      UnpackCount(map[], segments);
      UnpackKeys(map[], segments);
      AllHaveColon(map[], segments);
      forall i | 0 <= i < |segments| && (forall j :: i < j < |segments| ==> Name(segments[j]) != Name(segments[i]))
        ensures ':' in segments[i] && Name(segments[i]) in Unpacked(wol).value
        ensures Unpacked(wol).value[Name(segments[i])] == Mac(segments[i])
      {
        UnpackLastWins(map[], segments, i);
      }
    }
  }

  /** The loop of `__unpack_wol(wol)`. */
  method UnpackWol(wol: string) returns (r: Result<map<string, string>, PyError>)
    ensures r == Unpacked(wol)
  {
    var machines := Split(wol, '|');
    var result: map<string, string> := map[];
    for i := 0 to |machines|
      invariant UnpackFrom(result, machines[i..]) == Unpacked(wol)
    {
      assert machines[i..][1..] == machines[i + 1..];
      var machine := SplitMachine(machines[i]);
      if machine.Err? {
        return Err(machine.error);
      }
      var (name, mac) := machine.value;
      result := result[name := mac];
    }
    return Ok(result);
  }

  // ---------------------------------------------------------------------------
  // `LDAP_ADMIN_GROUPS`

  /** `LDAP_ADMIN_GROUPS.split("|")` when the variable is set; unset stays `None`. */
  function AdminGroups(setting: Option<string>): Option<seq<string>> {
    if setting.None? then None else Some(Split(setting.value, '|'))
  }

  /**
    * The groups are the pieces between the bars: none contains a bar, there
    * is one more than there are bars, and joining them gives the setting back.
    */
  lemma AdminGroupsPieces(setting: string)
    ensures var groups := AdminGroups(Some(setting)).value;
            && Join(groups, '|') == setting
            && |groups| == Count(setting, '|') + 1
            && forall k :: 0 <= k < |groups| ==> '|' !in groups[k]
  {
    JoinSplit(setting, '|');
    SplitPieces(setting, '|');
  }
}
