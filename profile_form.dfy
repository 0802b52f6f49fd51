/**
 * The child-profile form: its data fields, the three validation rules, the
 * favourite-colour checkboxes, and the component whose handlers edit, submit
 * and reset the form (asd-colors/src/components/ChildProfileForm.jsx).
 */
module ProfileForm {
  import opened JsString
  import opened EmailPattern

  /** The `name` attributes of the form's text, number, select and textarea inputs. */
  datatype Field = ChildName | Age | SensoryLevel | Challenges | GuardianEmail

  /** The data part of the component state. Every input holds a string; the
      age is the string of the number input, compared as a number only when
      validated. */
  datatype Profile = Profile(
    childName: string,
    age: string,
    sensoryLevel: string,
    favoriteColors: seq<string>,
    challenges: string,
    guardianEmail: string)
  {
    /** The value of the input named `f`. */
    function Get(f: Field): string
    {
      match f
      case ChildName => childName
      case Age => age
      case SensoryLevel => sensoryLevel
      case Challenges => challenges
      case GuardianEmail => guardianEmail
    }

    /** `{ ...state, [f]: v }` on the data fields. */
    function With(f: Field, v: string): (p: Profile)
      ensures p.Get(f) == v
      ensures forall g :: g != f ==> p.Get(g) == Get(g)
      ensures p.favoriteColors == favoriteColors
    {
      match f
      case ChildName => this.(childName := v)
      case Age => this.(age := v)
      case SensoryLevel => this.(sensoryLevel := v)
      case Challenges => this.(challenges := v)
      case GuardianEmail => this.(guardianEmail := v)
    }
  }

  /** The data the constructor starts from and `resetForm` restores. */
  const InitialProfile := Profile("", "", "moderate", [], "", "")

  const NameRequired := "Child name is required"
  const AgeInvalid := "Please enter a valid age (2-18)"
  const EmailRequired := "Guardian email is required"
  const EmailInvalid := "Please enter a valid email"

  /** The fields that have a validation rule. */
  const ValidatedFields: set<Field> := {ChildName, Age, GuardianEmail}

  // ---------------------------------------------------------------------------
  // Favourite colours

  /** `colors` with its elements kept in order and some of them left out. */
  ghost predicate IsSubsequence(r: seq<string>, colors: seq<string>)
    decreases |colors|
  {
    if r == [] then true
    else if colors == [] then false
    else (r[0] == colors[0] && IsSubsequence(r[1..], colors[1..])) || IsSubsequence(r, colors[1..])
  }

  /** `colors.filter(color => color !== value)`. */
  function Without(colors: seq<string>, value: string): (r: seq<string>)
    ensures value !in r
    ensures multiset(r) == multiset(colors)[value := 0]
    ensures IsSubsequence(r, colors)
  {
    if colors == [] then []
    else
      assert colors == [colors[0]] + colors[1..];
      if colors[0] == value then Without(colors[1..], value)
      else [colors[0]] + Without(colors[1..], value)
  }

  /** The new colour list after the checkbox for `value` is checked or unchecked:
      a check appends `value` at the end, an uncheck drops every occurrence of it. */
  function Toggled(colors: seq<string>, value: string, checked: bool): (r: seq<string>)
    ensures checked ==> |r| == |colors| + 1 && r[..|colors|] == colors && r[|colors|] == value
    ensures !checked ==> value !in r && IsSubsequence(r, colors)
    ensures !checked ==> forall x :: x != value ==> multiset(r)[x] == multiset(colors)[x]
  {
    if checked then colors + [value] else Without(colors, value)
  }

  lemma {:induction false} SubsequenceCount(r: seq<string>, colors: seq<string>, x: string)
    requires IsSubsequence(r, colors)
    ensures multiset(r)[x] <= multiset(colors)[x]
    decreases |colors|
  {
    if r != [] {
      assert colors == [colors[0]] + colors[1..];
      if r[0] == colors[0] && IsSubsequence(r[1..], colors[1..]) {
        assert r == [r[0]] + r[1..];
        SubsequenceCount(r[1..], colors[1..], x);
      } else {
        SubsequenceCount(r, colors[1..], x);
      }
    }
  }

  /** The filter is the only list without `value` that keeps every other entry,
      as often as it occurs and in its order. */
  lemma {:induction false} WithoutIsUnique(colors: seq<string>, value: string, r: seq<string>)
    requires value !in r && IsSubsequence(r, colors)
    requires forall x :: x != value ==> multiset(r)[x] == multiset(colors)[x]
    ensures r == Without(colors, value)
    decreases |colors|
  {
    if colors != [] {
      var c := colors[0];
      assert colors == [c] + colors[1..];
      if c == value {
        assert r == [] || r[0] != c;
        assert IsSubsequence(r, colors[1..]);
        WithoutIsUnique(colors[1..], value, r);
      } else {
        assert multiset(r)[c] == multiset(colors)[c] == multiset(colors[1..])[c] + 1;
        assert r != [];
        assert r == [r[0]] + r[1..];
        if r[0] == c && IsSubsequence(r[1..], colors[1..]) {
          assert multiset(r) == multiset{c} + multiset(r[1..]);
          assert multiset(colors) == multiset{c} + multiset(colors[1..]);
          forall x | x != value ensures multiset(r[1..])[x] == multiset(colors[1..])[x] {
            assert multiset(r)[x] == multiset{c}[x] + multiset(r[1..])[x];
            assert multiset(colors)[x] == multiset{c}[x] + multiset(colors[1..])[x];
          }
          WithoutIsUnique(colors[1..], value, r[1..]);
        } else {
          assert IsSubsequence(r, colors[1..]);
          SubsequenceCount(r, colors[1..], c);
          assert false;
        }
      }
    }
  }

  /** Filtering out a colour that is not listed changes nothing. */
  lemma {:induction false} WithoutAbsent(colors: seq<string>, value: string)
    requires value !in colors
    ensures Without(colors, value) == colors
  {
    if colors != [] {
      WithoutAbsent(colors[1..], value);
    }
  }

  /** Unchecking a colour that was checked once, from a list without it, gives
      the list back. */
  lemma {:induction false} UncheckUndoesCheck(colors: seq<string>, value: string)
    requires value !in colors
    ensures Toggled(Toggled(colors, value, true), value, false) == colors
  {
    if colors == [] {
      assert Without([value], value) == [];
    } else {
      var rest := colors[1..];
      assert (colors + [value])[1..] == rest + [value];
      UncheckUndoesCheck(rest, value);
    }
  }

  /** No colour is listed twice. */
  predicate Distinct(colors: seq<string>)
  {
    forall i, j | 0 <= i < j < |colors| :: colors[i] != colors[j]
  }

  lemma {:induction false} WithoutKeepsDistinct(colors: seq<string>, value: string)
    requires Distinct(colors)
    ensures Distinct(Without(colors, value))
  {
    if colors != [] {
      var rest := colors[1..];
      assert Distinct(rest);
      WithoutKeepsDistinct(rest, value);
      if colors[0] != value {
        var r := Without(rest, value);
        assert colors[0] !in rest by {
          forall j | 0 <= j < |rest| ensures rest[j] != colors[0] {
            assert rest[j] == colors[j + 1];
          }
        }
        assert multiset(r)[colors[0]] == 0;
        assert colors[0] !in r;
        assert Without(colors, value) == [colors[0]] + r;
      }
    }
  }

  /** Each checkbox shows whether its colour is listed, so a check adds a colour
      that is missing and an uncheck removes one that is present. Driven that
      way the list never holds a colour twice, and afterwards it holds `value`
      exactly when the box is checked. */
  lemma ToggleKeepsDistinct(colors: seq<string>, value: string, checked: bool)
    requires Distinct(colors) && checked == (value !in colors)
    ensures Distinct(Toggled(colors, value, checked))
    ensures value in Toggled(colors, value, checked) <==> checked
  {
    if !checked {
      WithoutKeepsDistinct(colors, value);
    } else {
      var r := Toggled(colors, value, checked);
      assert r == colors + [value];
      assert value in r;
    }
  }

  // ---------------------------------------------------------------------------
  // Validation

  /** `!age || age < 2 || age > 18` on the string the age input holds: a number
      outside 2..18, or nothing entered. */
  function AgeRejected(age: string): (r: bool)
    ensures IsBlank(age) ==> r
    ensures ToWholeNumber(age).None? ==> (r <==> age == "")
    ensures age != "" && ToWholeNumber(age).Some? ==>
      (r <==> !(2 <= ToWholeNumber(age).value <= 18))
  {
    || age == ""
    || match ToWholeNumber(age)
       case Some(n) => n < 2 || n > 18
       case None => false
  }

  /** The rule that field `f` breaks, if it has one. */
  ghost predicate Violates(p: Profile, f: Field)
  {
    match f
    case ChildName => IsBlank(p.childName)
    case Age => AgeRejected(p.age)
    case GuardianEmail => IsBlank(p.guardianEmail) || !PatternOccurs(p.guardianEmail)
    case _ => false
  }

  ghost function Message(p: Profile, f: Field): string
  {
    match f
    case ChildName => NameRequired
    case Age => AgeInvalid
    case GuardianEmail => if IsBlank(p.guardianEmail) then EmailRequired else EmailInvalid
    case _ => ""
  }

  /** What `validateForm` returns for the data `p`: one message for each field
      that breaks its rule, and nothing else. */
  ghost function ValidationErrors(p: Profile): (e: map<Field, string>)
    ensures e.Keys <= ValidatedFields
  {
    map f | f in ValidatedFields && Violates(p, f) :: Message(p, f)
  }

  /** The three rules, field by field: which keys appear and with which message. */
  lemma ValidationRules(p: Profile)
    ensures ValidationErrors(p).Keys <= ValidatedFields
    ensures ChildName in ValidationErrors(p) <==> IsBlank(p.childName)
    ensures Age in ValidationErrors(p) <==> AgeRejected(p.age)
    ensures GuardianEmail in ValidationErrors(p) <==>
      IsBlank(p.guardianEmail) || !PatternOccurs(p.guardianEmail)
    ensures ChildName in ValidationErrors(p) ==> ValidationErrors(p)[ChildName] == NameRequired
    ensures Age in ValidationErrors(p) ==> ValidationErrors(p)[Age] == AgeInvalid
    ensures GuardianEmail in ValidationErrors(p) ==>
      ValidationErrors(p)[GuardianEmail] == (if IsBlank(p.guardianEmail) then EmailRequired else EmailInvalid)
  {
  }

  /** The validation result, given the outcome of each test. */
  lemma ErrorsFromRules(p: Profile, nameBlank: bool, emailBlank: bool, emailMatches: bool)
    requires nameBlank == IsBlank(p.childName)
    requires emailBlank == IsBlank(p.guardianEmail)
    requires emailMatches == PatternOccurs(p.guardianEmail)
    ensures ValidationErrors(p) ==
      var e1: map<Field, string> := if nameBlank then map[ChildName := NameRequired] else map[];
      var e2 := if AgeRejected(p.age) then e1[Age := AgeInvalid] else e1;
      if emailBlank then e2[GuardianEmail := EmailRequired]
      else if !emailMatches then e2[GuardianEmail := EmailInvalid]
      else e2
  {
    var e := ValidationErrors(p);
    var e1: map<Field, string> := if nameBlank then map[ChildName := NameRequired] else map[];
    var e2 := if AgeRejected(p.age) then e1[Age := AgeInvalid] else e1;
    var m := if emailBlank then e2[GuardianEmail := EmailRequired]
      else if !emailMatches then e2[GuardianEmail := EmailInvalid]
      else e2;
    ValidationRules(p);
    SameErrors(e, m);
  }

  /** Two error maps over the validated fields that agree on each of the three
      keys are equal. */
  lemma SameErrors(e: map<Field, string>, m: map<Field, string>)
    requires e.Keys <= ValidatedFields && m.Keys <= ValidatedFields
    requires ChildName in e <==> ChildName in m
    requires Age in e <==> Age in m
    requires GuardianEmail in e <==> GuardianEmail in m
    requires ChildName in e ==> e[ChildName] == m[ChildName]
    requires Age in e ==> e[Age] == m[Age]
    requires GuardianEmail in e ==> e[GuardianEmail] == m[GuardianEmail]
    ensures e == m
  {
    assert e.Keys == m.Keys;
  }

  /** A whole number typed into the age input passes exactly when it lies in 2..18. */
  lemma AgeAcceptedExactly(n: int)
    ensures !AgeRejected(DecimalString(n)) <==> 2 <= n <= 18
  {
    DecimalRoundTrip(n);
    assert DecimalString(n) != "";
  }

  /** A submission goes through exactly when all three rules hold. */
  lemma SubmitAccepted(p: Profile)
    ensures |ValidationErrors(p)| == 0 <==>
      && !IsBlank(p.childName)
      && !AgeRejected(p.age)
      && !IsBlank(p.guardianEmail) && PatternOccurs(p.guardianEmail)
  {
    ValidationRules(p);
    var e := ValidationErrors(p);
    if |e| == 0 {
      assert e.Keys == {};
    } else {
      var f :| f in e.Keys;
    }
  }

  /** The sensory level, the challenges and the colours never decide the outcome. */
  lemma ValidationIgnoresOtherFields(p: Profile, q: Profile)
    requires p.childName == q.childName && p.age == q.age && p.guardianEmail == q.guardianEmail
    ensures ValidationErrors(p) == ValidationErrors(q)
  {
  }

  /** Submitting the initial (or reset) form reports all three required fields. */
  lemma InitialProfileRejected()
    ensures ValidationErrors(InitialProfile) ==
      map[ChildName := NameRequired, Age := AgeInvalid, GuardianEmail := EmailRequired]
  {
    assert IsBlank("");
    assert !PatternOccurs("");
    ErrorsFromRules(InitialProfile, true, true, false);
  }

  // ---------------------------------------------------------------------------
  // The component

  /** The `ChildProfileForm` class component with its `this.state`; each handler
      is one atomic state transition. */
  class ChildProfileForm {
    var childName: string
    var age: string
    var sensoryLevel: string
    var favoriteColors: seq<string>
    var challenges: string
    var guardianEmail: string
    var isSubmitted: bool
    var errors: map<Field, string>

    /** The data fields of the state. */
    function Data(): Profile
      reads this
    {
      Profile(childName, age, sensoryLevel, favoriteColors, challenges, guardianEmail)
    }

    /** The state the constructor sets up. */
    predicate IsInitial()
      reads this
    {
      Data() == InitialProfile && !isSubmitted && errors == map[]
    }

    constructor ()
      ensures IsInitial()
    {
      childName, age, sensoryLevel, favoriteColors := "", "", "moderate", [];
      challenges, guardianEmail := "", "";
      isSubmitted, errors := false, map[];
    }

    /** `handleInputChange`: the input named `name` now holds `value` and its
        error message is cleared; nothing else changes. */
    method HandleInputChange(name: Field, value: string)
      modifies this
      ensures Data() == old(Data()).With(name, value)
      ensures errors == old(errors)[name := ""]
      ensures isSubmitted == old(isSubmitted)
    {
      match name {
        case ChildName => childName := value;
        case Age => age := value;
        case SensoryLevel => sensoryLevel := value;
        case Challenges => challenges := value;
        case GuardianEmail => guardianEmail := value;
      }
      errors := errors[name := ""];
    }

    /** `handleCheckboxChange`: the colour list is toggled; nothing else changes. */
    method HandleCheckboxChange(value: string, checked: bool)
      modifies this
      ensures favoriteColors == Toggled(old(favoriteColors), value, checked)
      ensures Data() == old(Data()).(favoriteColors := favoriteColors)
      ensures errors == old(errors) && isSubmitted == old(isSubmitted)
      ensures Distinct(old(favoriteColors)) && checked == (value !in old(favoriteColors)) ==>
        Distinct(favoriteColors) && (value in favoriteColors <==> checked)
    {
      if Distinct(favoriteColors) && checked == (value !in favoriteColors) {
        ToggleKeepsDistinct(favoriteColors, value, checked);
      }
      if checked {
        favoriteColors := favoriteColors + [value];
      } else {
        favoriteColors := Without(favoriteColors, value);
      }
    }

    /** `validateForm`: builds the error map rule by rule and changes nothing. */
    method ValidateForm() returns (result: map<Field, string>)
      ensures result == ValidationErrors(Data())
    {
      var nameBlank := Trim(childName) == "";
      var emailBlank := Trim(guardianEmail) == "";
      var emailMatches := ContainsEmailPattern(guardianEmail);
      ErrorsFromRules(Data(), nameBlank, emailBlank, emailMatches);
      result := map[];
      if nameBlank {
        result := result[ChildName := NameRequired];
      }
      if AgeRejected(age) {
        result := result[Age := AgeInvalid];
      }
      if emailBlank {
        result := result[GuardianEmail := EmailRequired];
      } else if !emailMatches {
        result := result[GuardianEmail := EmailInvalid];
      }
    }

    /** `handleSubmit`: with any validation error the errors are replaced by the
        validation result; otherwise the form is marked submitted. The data
        fields never change. */
    method HandleSubmit()
      modifies this
      ensures Data() == old(Data())
      ensures var e := ValidationErrors(old(Data()));
        if |e| > 0 then errors == e && isSubmitted == old(isSubmitted)
        else isSubmitted && errors == old(errors)
    {
      var e := ValidateForm();
      if |e| > 0 {
        errors := e;
        return;
      }
      isSubmitted := true;
    }

    /** `resetForm`: back to exactly the constructor's state, whatever came before. */
    method ResetForm()
      modifies this
      ensures IsInitial()
    {
      childName, age, sensoryLevel, favoriteColors := "", "", "moderate", [];
      challenges, guardianEmail := "", "";
      isSubmitted, errors := false, map[];
    }
  }
}
