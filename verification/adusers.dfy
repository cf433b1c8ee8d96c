/** `AdUser`: a group member as the service returns it, a login and a
    display name freed of control characters. */
module AdUsers {
  import opened Wrappers
  import opened Strings
  import Accounts

  /** A directory principal as the membership code reads it; a missing
      `SamAccountName` or context name is "" (that is how `String.Format`
      renders `null`), a missing display name is `None`. */
  datatype Principal = Principal(
    structuralObjectClass: string,
    sid: string,
    contextName: string,
    samAccountName: string,
    displayName: Option<string>)

  datatype AdUser = AdUser(login: string, displayName: string)

  predicate IsControl(c: char) {
    c < ' '
  }

  predicate NoControls(s: string) {
    forall i :: 0 <= i < |s| ==> !IsControl(s[i])
  }

  /** `s` with every character below U+0020 left out. */
  function StripControls(s: string): (r: string)
    ensures NoControls(r)
    ensures |r| <= |s|
    ensures forall c :: c in r ==> c in s
  {
    if s == [] then []
    else (if IsControl(s[0]) then [] else [s[0]]) + StripControls(s[1..])
  }

  /** `AdUser.Fix`: `null` becomes "", otherwise the control characters are
      removed. */
  function Fix(text: Option<string>): (r: string)
    ensures text.None? ==> r == ""
    ensures NoControls(r)
    ensures text.Some? ==> r == StripControls(text.value)
  {
    match text
    case None => ""
    case Some(s) => StripControls(s)
  }

  /** Stripping works piecewise, so every kept character stays in its
      original order. */
  lemma {:induction false} StripControlsAppend(a: string, b: string)
    ensures StripControls(a + b) == StripControls(a) + StripControls(b)
  {
    if a == [] {
      assert a + b == b;
    } else {
      assert (a + b)[1..] == a[1..] + b;
      StripControlsAppend(a[1..], b);
    }
  }

  /** Text without control characters is left alone. */
  lemma {:induction false} StripControlsIdentity(s: string)
    requires NoControls(s)
    ensures StripControls(s) == s
  {
    if s != [] {
      StripControlsIdentity(s[1..]);
    }
  }

  /** `Fix` is idempotent and the identity on control-free text. */
  lemma FixIdempotent(text: Option<string>)
    ensures Fix(Some(Fix(text))) == Fix(text)
    ensures text.Some? && NoControls(text.value) ==> Fix(text) == text.value
  {
    StripControlsIdentity(Fix(text));
    if text.Some? && NoControls(text.value) {
      StripControlsIdentity(text.value);
    }
  }

  /** `s` without the characters of `cs`. */
  function DropAll(s: string, cs: set<char>): (r: string)
    ensures forall c :: c in r ==> c in s && c !in cs
  {
    if s == [] then []
    else (if s[0] in cs then [] else [s[0]]) + DropAll(s[1..], cs)
  }

  /** The control characters occurring in `t`. */
  function ControlsIn(t: string): set<char> {
    set c | c in t && IsControl(c)
  }

  /** One more `Replace` drops one more character. */
  lemma {:induction false} RemoveCharDropAll(s: string, cs: set<char>, c: char)
    ensures RemoveChar(DropAll(s, cs), c) == DropAll(s, cs + {c})
  {
    if s != [] {
      RemoveCharDropAll(s[1..], cs, c);
      var head := if s[0] in cs then [] else [s[0]];
      var tail := DropAll(s[1..], cs);
      assert DropAll(s, cs) == head + tail;
      if head == [] {
        assert head + tail == tail;
      } else {
        assert (head + tail)[0] == s[0] && (head + tail)[1..] == tail;
      }
    }
  }

  /** Dropping exactly the control characters that occur is stripping. */
  lemma {:induction false} DropAllControls(s: string, cs: set<char>)
    requires forall c :: c in cs ==> IsControl(c)
    requires forall i :: 0 <= i < |s| && IsControl(s[i]) ==> s[i] in cs
    ensures DropAll(s, cs) == StripControls(s)
  {
    if s != [] {
      DropAllControls(s[1..], cs);
    }
  }

  /** `Fix` as the C# loop computes it: for every character of the original
      text that is a control character, all its occurrences are removed
      from the current text with `Replace`. */
  method FixByReplace(text: Option<string>) returns (r: string)
    ensures r == Fix(text)
  {
    if text.None? {
      return "";
    }
    var original := text.value;
    r := original;
    var i := 0;
    assert ControlsIn(original[..0]) == {};
    assert DropAll(original, {}) == original by { DropAllNone(original); }
    while i < |original|
      invariant 0 <= i <= |original|
      invariant r == DropAll(original, ControlsIn(original[..i]))
    {
      var c := original[i];
      assert original[..i + 1] == original[..i] + [c];
      ControlsInSnoc(original[..i], c);
      if IsControl(c) {
        RemoveCharDropAll(original, ControlsIn(original[..i]), c);
        r := RemoveChar(r, c);
        assert ControlsIn(original[..i + 1]) == ControlsIn(original[..i]) + {c};
      } else {
        assert ControlsIn(original[..i + 1]) == ControlsIn(original[..i]);
      }
      i := i + 1;
    }
    assert original[..i] == original;
    DropAllControls(original, ControlsIn(original));
  }

  /** One more character adds itself to the controls when it is one. */
  lemma ControlsInSnoc(t: string, c: char)
    ensures IsControl(c) ==> ControlsIn(t + [c]) == ControlsIn(t) + {c}
    ensures !IsControl(c) ==> ControlsIn(t + [c]) == ControlsIn(t)
  {
    assert forall x :: x in t + [c] <==> x in t || x == c;
  }

  lemma {:induction false} DropAllNone(s: string)
    ensures DropAll(s, {}) == s
  {
    if s != [] {
      DropAllNone(s[1..]);
    }
  }

  /** `new AdUser(DomainAccount)`: the login verbatim, the display name
      fixed. */
  function FromDomainAccount(da: Accounts.DomainAccount): (u: AdUser)
    ensures u.login == da.loginName
    ensures NoControls(u.displayName) && |u.displayName| <= |da.displayName|
    ensures NoControls(da.displayName) ==> u.displayName == da.displayName
    ensures u.displayName == StripControls(da.displayName)
  {
    FixIdempotent(Some(da.displayName));
    AdUser(da.loginName, Fix(Some(da.displayName)))
  }

  /** `new AdUser(Principal)`: `context\sam` as login, the display name
      fixed. */
  function FromPrincipal(p: Principal): (u: AdUser)
    ensures |u.login| == |p.contextName| + 1 + |p.samAccountName|
    ensures u.login[..|p.contextName|] == p.contextName
    ensures u.login[|p.contextName|] == '\\'
    ensures u.login[|p.contextName| + 1..] == p.samAccountName
    ensures NoControls(u.displayName)
    ensures p.displayName.None? ==> u.displayName == ""
    ensures p.displayName.Some? ==> u.displayName == StripControls(p.displayName.value)
  {
    var login := p.contextName + "\\" + p.samAccountName;
    assert login[|p.contextName| + 1..] == p.samAccountName;
    AdUser(login, Fix(p.displayName))
  }

  /** A member's login parsed back as an account gives the principal's
      context as domain and its SAM account name. */
  lemma PrincipalLoginRoundTrip(p: Principal)
    requires '\\' !in p.contextName && '\\' !in p.samAccountName
    ensures Accounts.DomainAndSam(FromPrincipal(p).login) == (p.contextName, p.samAccountName)
  {
    var login := FromPrincipal(p).login;
    assert login == p.contextName + ['\\'] + p.samAccountName;
    SplitAfter(p.contextName, '\\', p.samAccountName);
    assert IndexOf(p.samAccountName, '\\') == -1;
  }
}
