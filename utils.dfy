/**
 * Best-effort field decoding: delimited lists with blank pieces dropped and
 * duplicates removed, single values that fall back to `None`, and the
 * support enumeration with its known misspellings corrected.
 */
module Utils {
  import opened Wrappers
  import opened Text
  import opened Cargo

  /** `set(filter(lambda x: x.strip(), s.split(delimiter)))`. */
  function NonBlankPieces(s: string, delimiter: string): (r: set<string>)
    requires delimiter != ""
    ensures forall x :: x in r <==> x in Split(s, delimiter) && !IsBlank(x)
  {
    set x | x in Split(s, delimiter) && !IsBlank(x)
  }

  /** `order` lists every element of `s` exactly once: one iteration order of a set. */
  ghost predicate Enumerates(order: seq<string>, s: set<string>) {
    && (forall i, k :: 0 <= i < k < |order| ==> order[i] != order[k])
    && (forall x :: x in order <==> x in s)
  }

  /** The elements of `s` on which `convert` succeeds. */
  function ConvertibleSet<T>(s: set<string>, convert: string -> Option<T>): set<string> {
    set x | x in s && convert(x).Some?
  }

  /** An enumeration has as many elements as the set it enumerates. */
  lemma {:induction false} EnumerationSize(order: seq<string>, s: set<string>)
    requires Enumerates(order, s)
    ensures |order| == |s|
  {
    if order != [] {
      var rest := s - {order[0]};
      forall x ensures x in order[1..] <==> x in rest {
        if x in order[1..] {
          var k :| 0 < k < |order| && order[k] == x;
        }
      }
      EnumerationSize(order[1..], rest);
    }
  }

  /** Keeping the convertible elements of an enumeration enumerates the convertible elements. */
  lemma {:induction false} ConvertibleEnumerates<T>(order: seq<string>, s: set<string>, convert: string -> Option<T>)
    requires Enumerates(order, s)
    ensures Enumerates(Convertible(order, convert), ConvertibleSet(s, convert))
  {
    if order != [] {
      var rest := s - {order[0]};
      forall x ensures x in order[1..] <==> x in rest {
        if x in order[1..] {
          var k :| 0 < k < |order| && order[k] == x;
        }
      }
      ConvertibleEnumerates(order[1..], rest, convert);
      ConvertibleSubset(order[1..], convert);
      var tail := Convertible(order[1..], convert);
      assert order[0] !in tail;
      var c := Convertible(order, convert);
      if convert(order[0]).Some? {
        assert c == [order[0]] + tail;
        forall i, k | 0 <= i < k < |c| ensures c[i] != c[k] {
          if i == 0 {
            assert c[k] == tail[k - 1];
          } else {
            assert c[i] == tail[i - 1] && c[k] == tail[k - 1];
          }
        }
      } else {
        assert c == tail;
      }
    }
  }

  /** Every convertible piece is one of the pieces. */
  lemma {:induction false} ConvertibleSubset<T>(order: seq<string>, convert: string -> Option<T>)
    ensures forall x :: x in Convertible(order, convert) ==> x in order && convert(x).Some?
  {
    if order != [] {
      ConvertibleSubset(order[1..], convert);
    }
  }

  /** Visiting one more element extends the enumeration of what was visited. */
  lemma EnumeratesExtend(order: seq<string>, done: set<string>, x: string)
    requires Enumerates(order, done) && x !in done
    ensures Enumerates(order + [x], done + {x})
  {
    var o := order + [x];
    forall y ensures y in o <==> y in done + {x} {
      if y in o && y != x {
        var i :| 0 <= i < |o| && o[i] == y;
        assert order[i] == y;
      }
    }
  }

  /** Converting an enumeration of `pieces`: the values are exactly those of
      the convertible pieces, one value per convertible piece. */
  lemma EnumeratedConversion<T>(order: seq<string>, pieces: set<string>, convert: string -> Option<T>)
    requires Enumerates(order, pieces)
    ensures forall v :: v in Converted(order, convert) <==> exists x :: x in pieces && convert(x) == Some(v)
    ensures |Converted(order, convert)| == |ConvertibleSet(pieces, convert)| <= |pieces|
  {
    forall v ensures v in Converted(order, convert) <==> exists x :: x in pieces && convert(x) == Some(v) {
      ConvertedMembers(order, convert, v);
      if exists x :: x in pieces && convert(x) == Some(v) {
        var x :| x in pieces && convert(x) == Some(v);
        var i :| 0 <= i < |order| && order[i] == x;
      }
    }
    ConvertedLength(order, convert);
    ConvertibleEnumerates(order, pieces, convert);
    EnumerationSize(Convertible(order, convert), ConvertibleSet(pieces, convert));
    var kept := ConvertibleSet(pieces, convert);
    assert pieces == kept + (pieces - kept);
    assert |pieces| == |kept| + |pieces - kept|;
  }

  /**
   * `parse_list(j, key, delimiter, convert)`: split the value at `key`, drop
   * blank pieces, drop duplicates, convert each remaining piece once in the
   * set's iteration order (`order`) and drop those whose conversion fails.
   * Python raises on an empty delimiter; the generated callers never pass one.
   */
  method ParseList<T>(j: Row, key: string, delimiter: string, convert: string -> Option<T>)
    returns (l: seq<T>, ghost order: seq<string>)
    requires delimiter != ""
    ensures !Truthy(Get(j, key)) ==> l == [] && order == []
    ensures Truthy(Get(j, key)) ==> Enumerates(order, NonBlankPieces(j[key], delimiter))
    ensures l == Converted(order, convert)
    ensures Truthy(Get(j, key)) ==>
      forall v :: v in l <==> exists x :: x in NonBlankPieces(j[key], delimiter) && convert(x) == Some(v)
    ensures Truthy(Get(j, key)) ==>
      |l| == |ConvertibleSet(NonBlankPieces(j[key], delimiter), convert)| <= |NonBlankPieces(j[key], delimiter)|
  {
    l, order := [], [];
    var s := Get(j, key);
    if !Truthy(s) {
      return;
    }
    var pieces := NonBlankPieces(s.value, delimiter);
    var remaining := pieces;
    while remaining != {}
      invariant remaining <= pieces
      invariant Enumerates(order, pieces - remaining)
      invariant l == Converted(order, convert)
      decreases |remaining|
    {
      var x :| x in remaining;
      ConvertedAppend(order, [x], convert);
      EnumeratesExtend(order, pieces - remaining, x);
      assert pieces - (remaining - {x}) == (pieces - remaining) + {x};
      match convert(x) {
        case Some(v) => l := l + [v];
        case None =>
      }
      order := order + [x];
      remaining := remaining - {x};
    }
    assert pieces - remaining == pieces;
    EnumeratedConversion(order, pieces, convert);
  }

  /** `parse_value(j, key, convert)`: `None` when the value is missing or empty
      or its conversion fails, the converted value otherwise. */
  function ParseValue<T>(j: Row, key: string, convert: string -> Option<T>): (r: Option<T>)
    ensures !Truthy(Get(j, key)) ==> r == None
    ensures Truthy(Get(j, key)) ==> r == convert(j[key])
  {
    var s := Get(j, key);
    if Truthy(s) then convert(s.value) else None
  }

  /** The support enumeration; each member's `Value()` is its raw spelling. */
  datatype SupportEnum = Null | Unknown | NA | False | Limmited | Hackable | True | Complete | AlwaysOn | OtherValue {
    function Value(): Option<string> {
      match this
      case Null => None
      case Unknown => Some("unknown")
      case NA => Some("n/a")
      case False => Some("false")
      case Limmited => Some("limited")
      case Hackable => Some("hackable")
      case True => Some("true")
      case Complete => Some("complete")
      case AlwaysOn => Some("always on")
      case OtherValue => Some("other value")
    }
  }

  /** The members in declaration order (`[field for field in SupportEnum]`). */
  const Members: seq<SupportEnum> := [Null, Unknown, NA, False, Limmited, Hackable, True, Complete, AlwaysOn, OtherValue]

  /** `SupportEnum(value)` when `value in [field.value for field in SupportEnum]`. */
  function FromValue(members: seq<SupportEnum>, value: Option<string>): (r: Option<SupportEnum>)
    ensures r.Some? ==> r.value in members && r.value.Value() == value
    ensures r.None? ==> forall t :: t in members ==> t.Value() != value
  {
    if members == [] then None
    else if members[0].Value() == value then Some(members[0])
    else FromValue(members[1..], value)
  }

  /** Distinct members have distinct spellings. */
  lemma ValueInjective(a: SupportEnum, b: SupportEnum)
    ensures a.Value() == b.Value() ==> a == b
  {
  }

  /** Every member is looked up by its own spelling. */
  lemma FromOwnValue(t: SupportEnum)
    ensures FromValue(Members, t.Value()) == Some(t)
  {
    var r := FromValue(Members, t.Value());
    assert t in Members;
    ValueInjective(r.value, t);
  }

  /** A decoded support value: the normalised member and the raw value it came from. */
  datatype SupportValue = SupportValue(tag: SupportEnum, rawValue: Option<string>)

  /**
   * `parse_support_enum(j, key)`: a canonical spelling (including the absent
   * value, which is `NULL`'s) gives its own member; `fakse`, `yes` and
   * `partial` are corrected to `FALSE`, `TRUE` and `LIMMITED`; anything else
   * is `OTHER_VALUE`. The raw value is kept verbatim.
   */
  function ParseSupportEnum(j: Row, key: string): (r: SupportValue)
    ensures r.rawValue == Get(j, key)
    ensures Get(j, key) == Some("fakse") ==> r.tag == False
    ensures Get(j, key) == Some("yes") ==> r.tag == True
    ensures Get(j, key) == Some("partial") ==> r.tag == Limmited
    ensures Get(j, key) == None ==> r.tag == Null
  {
    var value := Get(j, key);
    var tag :=
      match FromValue(Members, value)
      case Some(t) => t
      case None =>
        if value == Some("fakse") then False
        else if value == Some("yes") then True
        else if value == Some("partial") then Limmited
        else OtherValue;
    SupportValue(tag, value)
  }

  /** A canonical spelling decodes to its own member. */
  lemma CanonicalSpelling(j: Row, key: string, t: SupportEnum)
    requires Get(j, key) == t.Value()
    ensures ParseSupportEnum(j, key).tag == t
  {
    FromOwnValue(t);
  }

  /** The normaliser is total onto the closed set: `OTHER_VALUE` is exactly
      its own spelling and every value that is neither canonical nor a known
      misspelling. */
  lemma OtherValueExactly(j: Row, key: string)
    ensures ParseSupportEnum(j, key).tag == OtherValue <==>
      Get(j, key) == Some("other value") ||
      (Get(j, key) !in {Some("fakse"), Some("yes"), Some("partial")} &&
       forall t :: t in Members ==> t.Value() != Get(j, key))
  {
    var v := Get(j, key);
    match FromValue(Members, v)
    case Some(t) => ValueInjective(t, OtherValue);
    case None =>
  }
}
