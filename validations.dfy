/** The create-object schema: length rules on `title` and `description`, each with an
    ordered message. Every rule of a field is checked and each failure is an issue, in
    rule order; the form shows the first issue of each field. */
module Validations {
  import opened Types

  /** One length rule of a string field and the message it reports. */
  datatype LengthRule = MinLength(bound: nat, message: string) | MaxLength(bound: nat, message: string)

  predicate Violates(rule: LengthRule, s: string)
  {
    match rule
    case MinLength(n, _) => |s| < n
    case MaxLength(n, _) => |s| > n
  }

  const TitleRequired := "Le titre est requis"
  const TitleTooShort := "Le titre doit contenir au moins 3 caractères"
  const TitleTooLong := "Le titre ne peut pas dépasser 100 caractères"
  const DescriptionRequired := "La description est requise"
  const DescriptionTooShort := "La description doit contenir au moins 10 caractères"
  const DescriptionTooLong := "La description ne peut pas dépasser 500 caractères"

  const TitleRules: seq<LengthRule> :=
    [MinLength(1, TitleRequired), MinLength(3, TitleTooShort), MaxLength(100, TitleTooLong)]
  const DescriptionRules: seq<LengthRule> :=
    [MinLength(1, DescriptionRequired), MinLength(10, DescriptionTooShort), MaxLength(500, DescriptionTooLong)]

  /** The messages of every rule `s` violates, in rule order. */
  function Issues(rules: seq<LengthRule>, s: string): (r: seq<string>)
    ensures |r| <= |rules|
  {
    if rules == [] then []
    else (if Violates(rules[0], s) then [rules[0].message] else []) + Issues(rules[1..], s)
  }

  /** The message the form displays for a field: its first issue, if any. There is none
      exactly when no rule is violated, and otherwise it is the message of the first rule
      violated. */
  function FirstIssue(rules: seq<LengthRule>, s: string): (r: Option<string>)
    ensures r.None? <==> forall i :: 0 <= i < |rules| ==> !Violates(rules[i], s)
    ensures forall k :: 0 <= k < |rules| && Violates(rules[k], s) && NoneViolatedBefore(rules, s, k) ==>
      r == Some(rules[k].message)
  {
    NoIssuesIff(rules, s);
    FirstIssueIsFirstViolation(rules, s);
    var issues := Issues(rules, s);
    if issues == [] then None else Some(issues[0])
  }

  /** No rule before index `k` is violated. */
  predicate NoneViolatedBefore(rules: seq<LengthRule>, s: string, k: nat)
    requires k <= |rules|
  {
    forall j :: 0 <= j < k ==> !Violates(rules[j], s)
  }

  datatype CreateObjectInput = CreateObjectInput(title: string, description: string)

  /** The per-field messages of a rejected input. */
  datatype FieldErrors = FieldErrors(title: Option<string>, description: Option<string>)

  datatype Verdict = Valid(input: CreateObjectInput) | Invalid(errors: FieldErrors)

  /** Parses a candidate input against the schema: the input is accepted unchanged exactly
      when neither field violates a rule; a rejection carries each field's first message,
      and at least one of them is present. */
  function Validate(input: CreateObjectInput): (r: Verdict)
    ensures r.Valid? <==>
      && (forall i :: 0 <= i < |TitleRules| ==> !Violates(TitleRules[i], input.title))
      && (forall i :: 0 <= i < |DescriptionRules| ==> !Violates(DescriptionRules[i], input.description))
    ensures r.Valid? ==> r.input == input
    ensures r.Invalid? ==>
      && r.errors == FieldErrors(FirstIssue(TitleRules, input.title), FirstIssue(DescriptionRules, input.description))
      && (r.errors.title.Some? || r.errors.description.Some?)
  {
    var t := FirstIssue(TitleRules, input.title);
    var d := FirstIssue(DescriptionRules, input.description);
    if t == None && d == None then Valid(input) else Invalid(FieldErrors(t, d))
  }

  /** The message shown under the title field for a verdict. */
  function TitleMessage(v: Verdict): Option<string>
  {
    match v
    case Valid(_) => None
    case Invalid(e) => e.title
  }

  /** The message shown under the description field for a verdict. */
  function DescriptionMessage(v: Verdict): Option<string>
  {
    match v
    case Valid(_) => None
    case Invalid(e) => e.description
  }

  /** A string passes a rule list iff it violates none of the rules. */
  lemma {:induction false} NoIssuesIff(rules: seq<LengthRule>, s: string)
    ensures Issues(rules, s) == [] <==> forall i :: 0 <= i < |rules| ==> !Violates(rules[i], s)
  {
    if rules != [] {
      NoIssuesIff(rules[1..], s);
      assert forall i :: 1 <= i < |rules| ==> rules[i] == rules[1..][i - 1];
    }
  }

  /** The first issue reported is the message of the first rule violated. */
  lemma {:induction false} FirstIssueIsFirstViolation(rules: seq<LengthRule>, s: string)
    ensures forall k :: 0 <= k < |rules| && Violates(rules[k], s) && NoneViolatedBefore(rules, s, k) ==>
      Issues(rules, s) != [] && Issues(rules, s)[0] == rules[k].message
  {
    if rules != [] {
      FirstIssueIsFirstViolation(rules[1..], s);
      forall k | 0 <= k < |rules| && Violates(rules[k], s) && NoneViolatedBefore(rules, s, k)
        ensures Issues(rules, s) != [] && Issues(rules, s)[0] == rules[k].message
      {
        if k > 0 {
          assert !Violates(rules[0], s);
          assert rules[1..][k - 1] == rules[k];
          assert NoneViolatedBefore(rules[1..], s, k - 1) by {
            forall j | 0 <= j < k - 1 ensures !Violates(rules[1..][j], s) {
              assert rules[1..][j] == rules[j + 1];
            }
          }
        }
      }
    }
  }

  /** The title rules, in order: presence, then at least 3, then at most 100. */
  lemma TitleMessageByLength(t: string)
    ensures FirstIssue(TitleRules, t) ==
      if |t| == 0 then Some(TitleRequired)
      else if |t| < 3 then Some(TitleTooShort)
      else if |t| > 100 then Some(TitleTooLong)
      else None
  {
    if |t| == 0 {
      assert Violates(TitleRules[0], t) && NoneViolatedBefore(TitleRules, t, 0);
    } else if |t| < 3 {
      assert Violates(TitleRules[1], t) && NoneViolatedBefore(TitleRules, t, 1);
    } else if |t| > 100 {
      assert Violates(TitleRules[2], t) && NoneViolatedBefore(TitleRules, t, 2);
    } else {
      NoIssuesIff(TitleRules, t);
    }
  }

  /** The description rules, in order: presence, then at least 10, then at most 500. */
  lemma DescriptionMessageByLength(d: string)
    ensures FirstIssue(DescriptionRules, d) ==
      if |d| == 0 then Some(DescriptionRequired)
      else if |d| < 10 then Some(DescriptionTooShort)
      else if |d| > 500 then Some(DescriptionTooLong)
      else None
  {
    if |d| == 0 {
      assert Violates(DescriptionRules[0], d) && NoneViolatedBefore(DescriptionRules, d, 0);
    } else if |d| < 10 {
      assert Violates(DescriptionRules[1], d) && NoneViolatedBefore(DescriptionRules, d, 1);
    } else if |d| > 500 {
      assert Violates(DescriptionRules[2], d) && NoneViolatedBefore(DescriptionRules, d, 2);
    } else {
      NoIssuesIff(DescriptionRules, d);
    }
  }

  /** An empty title violates both minimum rules; the presence message comes first. */
  lemma EmptyTitleIssues()
    ensures Issues(TitleRules, "") == [TitleRequired, TitleTooShort]
  {
    var rest := TitleRules[1..];
    assert Issues(rest[1..], "") == [] by {
      NoIssuesIff(rest[1..], "");
    }
    assert Issues(rest, "") == [TitleTooShort];
  }

  /** The schema accepts exactly the inputs with title length in [3, 100] and
      description length in [10, 500]. */
  lemma ValidIff(input: CreateObjectInput)
    ensures Validate(input).Valid? <==>
      3 <= |input.title| <= 100 && 10 <= |input.description| <= 500
    ensures Validate(input).Valid? ==> Validate(input).input == input
  {
    TitleMessageByLength(input.title);
    DescriptionMessageByLength(input.description);
  }

  /** The title's message depends on the title alone, the description's on the description alone. */
  lemma FieldsIndependent(a: CreateObjectInput, b: CreateObjectInput)
    ensures a.title == b.title ==> TitleMessage(Validate(a)) == TitleMessage(Validate(b))
    ensures a.description == b.description ==>
      DescriptionMessage(Validate(a)) == DescriptionMessage(Validate(b))
  {
    TitleMessageByLength(a.title);
    DescriptionMessageByLength(a.description);
  }

  /** A six-character title with a 38-character description passes. */
  lemma SunsetExampleIsValid()
    ensures Validate(CreateObjectInput("Sunset", "A beautiful evening sky over the hills")).Valid?
  {
    ValidIff(CreateObjectInput("Sunset", "A beautiful evening sky over the hills"));
  }
}
