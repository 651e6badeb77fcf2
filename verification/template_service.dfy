/** backend/api/template/services/template_service.py: wrapping LaTeX code in a
    template's `{children}` placeholder, and the template lookups. */
module TemplateService {
  import opened Options
  import opened Text
  import opened Records

  /** The name of the system default template. */
  const SYSTEM_DEFAULT_NAME := "システムデフォルト"

  /** `wrap_latex_with_template(latex_code, template)`: every placeholder of the
      template's content replaced by the code, so each one changes the length by
      `|code| - 10`, and content without a placeholder comes back unchanged. */
  function Wrap(code: string, content: string): (r: string)
    ensures |r| == |content| + CountOccurrences(content, PLACEHOLDER) * (|code| - |PLACEHOLDER|)
    ensures !Contains(content, PLACEHOLDER) ==> r == content
  {
    ReplaceAllLength(content, PLACEHOLDER, code);
    assert !Contains(content, PLACEHOLDER) ==> ReplaceAll(content, PLACEHOLDER, code) == content by {
      if !Contains(content, PLACEHOLDER) {
        ReplaceAllAbsent(content, PLACEHOLDER, code);
      }
    }
    ReplaceAll(content, PLACEHOLDER, code)
  }

  /** The length equation of `ReplaceAll`, on one string. */
  predicate LengthHolds(s: string, pat: string, rep: string)
    requires |pat| > 0
  {
    |ReplaceAll(s, pat, rep)| == |s| + CountOccurrences(s, pat) * (|rep| - |pat|)
  }

  /** A substitution at the front adds `|rep| - |pat|` to what the rest gives. */
  lemma LengthAfterMatch(s: string, pat: string, rep: string)
    requires |pat| > 0 && |s| >= |pat| && s[..|pat|] == pat
    requires LengthHolds(s[|pat|..], pat, rep)
    ensures LengthHolds(s, pat, rep)
  {
    var t := s[|pat|..];
    var c := CountOccurrences(t, pat);
    var n := CountOccurrences(s, pat);
    var d := |rep| - |pat|;
    var lt := |ReplaceAll(t, pat, rep)|;
    assert |ReplaceAll(s, pat, rep)| == |rep| + lt;
    assert lt == |t| + c * d;
    assert n == 1 + c;
    OneMoreTimes(c, d);
    assert n * d == d + c * d;
  }

  lemma OneMoreTimes(c: int, d: int)
    ensures (1 + c) * d == d + c * d
  {
  }

  /** A copied first character adds one to what the rest gives. */
  lemma LengthAfterCopy(s: string, pat: string, rep: string)
    requires |pat| > 0 && |s| >= |pat| && s[..|pat|] != pat
    requires LengthHolds(s[1..], pat, rep)
    ensures LengthHolds(s, pat, rep)
  {
    assert |ReplaceAll(s, pat, rep)| == 1 + |ReplaceAll(s[1..], pat, rep)|;
    assert CountOccurrences(s, pat) == CountOccurrences(s[1..], pat);
  }

  /** Each substituted placeholder changes the length by `|code| - 10`. */
  lemma {:induction false} ReplaceAllLength(s: string, pat: string, rep: string)
    requires |pat| > 0
    ensures |ReplaceAll(s, pat, rep)| == |s| + CountOccurrences(s, pat) * (|rep| - |pat|)
    decreases |s|
  {
    if |s| >= |pat| {
      if s[..|pat|] == pat {
        ReplaceAllLength(s[|pat|..], pat, rep);
        LengthAfterMatch(s, pat, rep);
      } else {
        ReplaceAllLength(s[1..], pat, rep);
        LengthAfterCopy(s, pat, rep);
      }
    }
  }

  /** Content without a placeholder comes back unchanged. */
  lemma {:induction false} ReplaceAllAbsent(s: string, pat: string, rep: string)
    requires |pat| > 0
    requires !Contains(s, pat)
    ensures ReplaceAll(s, pat, rep) == s
    decreases |s|
  {
    if |s| >= |pat| {
      assert !OccursAt(s, pat, 0);
      AbsentFromSuffix(s, 1, pat);
      ReplaceAllAbsent(s[1..], pat, rep);
      assert s == [s[0]] + s[1..];
    }
  }

  /** No occurrence of `pat` starts among the first `n` positions of `s`. */
  predicate NoneBefore(s: string, pat: string, n: nat) {
    forall i :: 0 <= i < n ==> !OccursAt(s, pat, i)
  }

  /** Dropping the first character keeps the prefix free of occurrences. */
  lemma NoneBeforeTail(p: string, rest: string, pat: string)
    requires p != []
    requires NoneBefore(p + rest, pat, |p|)
    ensures NoneBefore(p[1..] + rest, pat, |p| - 1)
    ensures (p + rest)[1..] == p[1..] + rest
  {
    var s := p + rest;
    assert s[1..] == p[1..] + rest;
    forall i | 0 <= i < |p| - 1 ensures !OccursAt(p[1..] + rest, pat, i) {
      assert !OccursAt(s, pat, i + 1);
      if i + 1 + |pat| <= |s| {
        assert s[i + 1..i + 1 + |pat|] == (p[1..] + rest)[i..i + |pat|];
      }
    }
  }

  /** A stretch in front of the first occurrence is copied unchanged by the
      backend's replace-all. */
  lemma {:induction false} ReplaceAllSkipsPrefix(p: string, rest: string, pat: string, rep: string)
    requires |pat| > 0
    requires NoneBefore(p + rest, pat, |p|)
    ensures ReplaceAll(p + rest, pat, rep) == p + ReplaceAll(rest, pat, rep)
    decreases |p|
  {
    if p != [] {
      var s := p + rest;
      NoneBeforeTail(p, rest, pat);
      ReplaceAllSkipsPrefix(p[1..], rest, pat, rep);
      if |s| >= |pat| {
        assert s[..|pat|] != pat by {
          assert !OccursAt(s, pat, 0);
        }
        assert s[0] == p[0];
        assert ReplaceAll(s, pat, rep) == [p[0]] + ReplaceAll(p[1..] + rest, pat, rep);
        assert p == [p[0]] + p[1..];
      } else {
        assert ReplaceAll(rest, pat, rep) == rest;
      }
    } else {
      assert p + rest == rest;
    }
  }

  /** ... and by the frontend's replace-first. */
  lemma {:induction false} ReplaceFirstSkipsPrefix(p: string, rest: string, pat: string, rep: string)
    requires |pat| > 0
    requires NoneBefore(p + rest, pat, |p|)
    ensures ReplaceFirst(p + rest, pat, rep) == p + ReplaceFirst(rest, pat, rep)
    decreases |p|
  {
    if p != [] {
      var s := p + rest;
      NoneBeforeTail(p, rest, pat);
      ReplaceFirstSkipsPrefix(p[1..], rest, pat, rep);
      if |s| >= |pat| {
        assert s[..|pat|] != pat by {
          assert !OccursAt(s, pat, 0);
        }
        assert s[0] == p[0];
        assert ReplaceFirst(s, pat, rep) == [p[0]] + ReplaceFirst(p[1..] + rest, pat, rep);
        assert p == [p[0]] + p[1..];
      } else {
        assert ReplaceFirst(rest, pat, rep) == rest;
      }
    } else {
      assert p + rest == rest;
    }
  }

  /** With exactly one placeholder, `content == prefix + "{children}" + suffix`,
      the result is `prefix + code + suffix`. */
  lemma WrapSinglePlaceholder(code: string, prefix: string, suffix: string)
    requires NoneBefore(prefix + PLACEHOLDER + suffix, PLACEHOLDER, |prefix|)
    requires !Contains(suffix, PLACEHOLDER)
    ensures Wrap(code, prefix + PLACEHOLDER + suffix) == prefix + code + suffix
  {
    assert prefix + PLACEHOLDER + suffix == prefix + (PLACEHOLDER + suffix);
    ReplaceAllSkipsPrefix(prefix, PLACEHOLDER + suffix, PLACEHOLDER, code);
    assert (PLACEHOLDER + suffix)[..|PLACEHOLDER|] == PLACEHOLDER;
    assert (PLACEHOLDER + suffix)[|PLACEHOLDER|..] == suffix;
    ReplaceAllAbsent(suffix, PLACEHOLDER, code);
  }

  /** The frontend's default-template loader replaces only the first
      placeholder; on a template with a single placeholder the two agree. */
  lemma ReplaceFirstAgreesOnSinglePlaceholder(code: string, prefix: string, suffix: string)
    requires NoneBefore(prefix + PLACEHOLDER + suffix, PLACEHOLDER, |prefix|)
    requires !Contains(suffix, PLACEHOLDER)
    ensures ReplaceFirst(prefix + PLACEHOLDER + suffix, PLACEHOLDER, code) == Wrap(code, prefix + PLACEHOLDER + suffix)
  {
    WrapSinglePlaceholder(code, prefix, suffix);
    assert prefix + PLACEHOLDER + suffix == prefix + (PLACEHOLDER + suffix);
    ReplaceFirstSkipsPrefix(prefix, PLACEHOLDER + suffix, PLACEHOLDER, code);
    assert (PLACEHOLDER + suffix)[..|PLACEHOLDER|] == PLACEHOLDER;
    assert (PLACEHOLDER + suffix)[|PLACEHOLDER|..] == suffix;
  }

  /** With two placeholders the two replacements differ whenever the code is
      not the placeholder itself. */
  lemma ReplaceFirstDiffersOnTwoPlaceholders(code: string)
    requires code != PLACEHOLDER
    ensures ReplaceFirst(PLACEHOLDER + PLACEHOLDER, PLACEHOLDER, code) != Wrap(code, PLACEHOLDER + PLACEHOLDER)
  {
    var s := PLACEHOLDER + PLACEHOLDER;
    assert s[..|PLACEHOLDER|] == PLACEHOLDER && s[|PLACEHOLDER|..] == PLACEHOLDER;
    assert ReplaceFirst(s, PLACEHOLDER, code) == code + PLACEHOLDER;
    assert PLACEHOLDER[..|PLACEHOLDER|] == PLACEHOLDER && PLACEHOLDER[|PLACEHOLDER|..] == [];
    assert Wrap(code, PLACEHOLDER) == code;
    assert Wrap(code, s) == code + code;
    assert (code + PLACEHOLDER)[|code|..] == PLACEHOLDER && (code + code)[|code|..] == code;
  }

  /** The filter `user=user, is_default=True`. */
  function IsDefaultOf(user: UserId): Template -> bool {
    (t: Template) => t.user == Some(user) && t.isDefault
  }

  /** `get_user_template(user)`: the user's default template; `Missing` stands
      for the `None` returned on `DoesNotExist`. */
  function GetUserTemplate(templates: seq<Template>, user: UserId): (r: GetOutcome<Template>)
    ensures r.Found? ==> r.value in templates && r.value.user == Some(user) && r.value.isDefault
    ensures r.Missing? <==> forall t :: t in templates ==> !(t.user == Some(user) && t.isDefault)
  {
    Get(templates, IsDefaultOf(user))
  }

  /** Under the single-default constraint the lookup never raises. */
  lemma UserTemplateNeverMultiple(templates: seq<Template>, user: UserId)
    requires AtMostOneDefault(templates)
    ensures !GetUserTemplate(templates, user).Multiple?
  {
    var p := IsDefaultOf(user);
    var m := Filter(templates, p);
    if |m| > 1 {
      DefaultsOfUser(templates, user);
    }
  }

  /** The defaults of one user number at most one. */
  lemma {:induction false} DefaultsOfUser(templates: seq<Template>, user: UserId)
    requires AtMostOneDefault(templates)
    ensures |Filter(templates, IsDefaultOf(user))| <= 1
  {
    var p := IsDefaultOf(user);
    if templates != [] {
      var rest := templates[1..];
      assert AtMostOneDefault(rest) by {
        forall i, j | 0 <= i < j < |rest| && rest[i].isDefault && rest[j].isDefault && rest[i].user.Some?
          ensures rest[i].user != rest[j].user
        {
          assert rest[i] == templates[i + 1] && rest[j] == templates[j + 1];
        }
      }
      DefaultsOfUser(rest, user);
      if p(templates[0]) {
        forall x | x in rest ensures !p(x) {
          var j :| 0 <= j < |rest| && rest[j] == x;
          assert templates[j + 1] == x;
        }
        assert Filter(rest, p) == [];
      }
    }
  }

  /** `get_system_default_template()`: the template without a user carrying the
      system default name; nothing keeps two such rows apart. */
  function GetSystemDefaultTemplate(templates: seq<Template>): (r: GetOutcome<Template>)
    ensures r.Found? ==> r.value in templates && r.value.user.None? && r.value.name == SYSTEM_DEFAULT_NAME
    ensures r.Missing? <==> forall t :: t in templates ==> !(t.user.None? && t.name == SYSTEM_DEFAULT_NAME)
  {
    Get(templates, (t: Template) => t.user.None? && t.name == SYSTEM_DEFAULT_NAME)
  }
}
