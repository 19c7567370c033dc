/** `optionContainer` (option.go): the option list embedded in IA_NA,
    Next Hop and Route Prefix, with its lookup, append and replace
    operations.  The Go receivers mutate the list; here each operation
    returns the new list. */
module Container {
  import opened Wire
  import opened Options

  /** What a lookup finds: the first option of the type, or nothing (`nil`). */
  datatype Lookup = Absent | Present(option: Option)

  /** The position of the first option of type `t`, or `|os|` when there is
      none. */
  function FirstIndex(os: seq<Option>, t: uint8): (i: nat)
    ensures i <= |os|
    ensures i < |os| ==> Code(os[i]) == t
    ensures forall j | 0 <= j < i :: Code(os[j]) != t
  {
    if |os| == 0 then 0
    else if Code(os[0]) == t then 0
    else 1 + FirstIndex(os[1..], t)
  }

  /** `HasOption`: the first option of type `t`, or nothing. */
  function HasOption(os: seq<Option>, t: uint8): (r: Lookup)
    ensures r.Absent? <==> forall j | 0 <= j < |os| :: Code(os[j]) != t
    ensures r.Present? ==> exists i | 0 <= i < |os| :: os[i] == r.option
                                  && Code(os[i]) == t
                                  && forall j | 0 <= j < i :: Code(os[j]) != t
  {
    var i := FirstIndex(os, t);
    if i < |os| then Present(os[i]) else Absent
  }

  /** `AddOption`: appends, even when the type is already present. */
  function AddOption(os: seq<Option>, o: Option): (r: seq<Option>)
    ensures |r| == |os| + 1 && r[..|os|] == os && r[|os|] == o
  {
    os + [o]
  }

  /** `SetOption`: replaces the first option of the same type in place, or
      appends when there is none. */
  function SetOption(os: seq<Option>, o: Option): (r: seq<Option>)
    ensures (exists j | 0 <= j < |os| :: Code(os[j]) == Code(o)) ==>
              && |r| == |os|
              && exists i | 0 <= i < |os| ::
                   && Code(os[i]) == Code(o)
                   && (forall j | 0 <= j < i :: Code(os[j]) != Code(o))
                   && r == os[i := o]
    ensures (forall j | 0 <= j < |os| :: Code(os[j]) != Code(o)) ==> r == os + [o]
  {
    var i := FirstIndex(os, Code(o));
    if i < |os| then os[i := o] else os + [o]
  }

  /** After `SetOption`, a lookup of the new option's type finds it. */
  lemma HasOptionAfterSet(os: seq<Option>, o: Option)
    ensures HasOption(SetOption(os, o), Code(o)) == Present(o)
  {
    var i := FirstIndex(os, Code(o));
    var r := SetOption(os, o);
    if i < |os| {
      assert FirstIndex(r, Code(o)) <= i by {
        assert r[i] == o;
      }
    } else {
      assert r[|os|] == o;
    }
  }

  /** `SetOption` does not change what a lookup of any other type finds. */
  lemma HasOptionOtherAfterSet(os: seq<Option>, o: Option, t: uint8)
    requires t != Code(o)
    ensures HasOption(SetOption(os, o), t) == HasOption(os, t)
  {
    var i := FirstIndex(os, t);
    var r := SetOption(os, o);
    assert forall j | 0 <= j < |os| && Code(os[j]) == t :: r[j] == os[j];
    if i < |os| {
      assert r[i] == os[i];
      assert FirstIndex(r, t) == i;
    } else {
      assert forall j | 0 <= j < |r| :: Code(r[j]) != t;
    }
  }

  /** `SetOption` is idempotent. */
  lemma SetOptionIdempotent(os: seq<Option>, o: Option)
    ensures SetOption(SetOption(os, o), o) == SetOption(os, o)
  {
    var r := SetOption(os, o);
    HasOptionAfterSet(os, o);
    var k := FirstIndex(r, Code(o));
    assert r[k] == o;
  }

  /** After `AddOption`, a lookup finds what it found before, or the new
      option when the type was absent. */
  lemma HasOptionAfterAdd(os: seq<Option>, o: Option, t: uint8)
    ensures HasOption(AddOption(os, o), t) ==
              if HasOption(os, t).Present? then HasOption(os, t)
              else if Code(o) == t then Present(o)
              else Absent
  {
    var r := AddOption(os, o);
    var i := FirstIndex(os, t);
    if i < |os| {
      assert r[i] == os[i];
      assert FirstIndex(r, t) == i;
    } else if Code(o) == t {
      assert r[|os|] == o;
      assert FirstIndex(r, t) == |os|;
    }
  }
}
