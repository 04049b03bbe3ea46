/** The Robot Framework version-string parser of the language server
    (`language_server/robotframework/utils/version.py`): the pattern
    `major.minor[.patch][(a|b|rc)N][.devN]` followed by nothing. `re.match`
    tries every optional group greedily and the trailing `rest` group always
    matches, so the match it returns is the greedy one modelled by `Match`. */
module RobotVersion {
  import opened Wrappers
  import opened Text

  /** `(major, minor, patch, pre_id, pre_number, dev)`. */
  datatype Version = Version(
    major: nat,
    minor: nat,
    patch: Option<nat>,
    preId: Option<string>,
    preNumber: Option<nat>,
    dev: Option<nat>)

  /** The message of `InvalidRobotVersionError`. */
  const InvalidVersion := "Invalid robot version string."

  /** The longest run of digits at the start of `u` (`\d+` is greedy). */
  function DigitPrefix(u: string): (d: string)
    ensures |d| <= |u| && d == u[..|d|]
    ensures AllDigits(d)
    ensures |d| == |u| || !IsDigit(u[|d|])
  {
    if u != [] && IsDigit(u[0]) then [u[0]] + DigitPrefix(u[1..]) else []
  }

  /** `u` starts with `tag` followed by a digit. */
  predicate StartsGroup(u: string, tag: string) {
    |u| > |tag| && u[..|tag|] == tag && IsDigit(u[|tag|])
  }

  /** A group `tag\d+` at the start of `u`: its number and the text after it. */
  function Tagged(u: string, tag: string): (r: Option<(nat, string)>)
    ensures r.Some? <==> StartsGroup(u, tag)
    ensures r.Some? ==> |r.value.1| < |u|
  {
    if StartsGroup(u, tag) then
      var d := DigitPrefix(u[|tag|..]);
      Some((DigitsValue(d), u[|tag|..][|d|..]))
    else None
  }

  /** An optional group: its number if present, and the text after it. */
  function Optional(u: string, tag: string): (r: (Option<nat>, string))
    ensures |r.1| <= |u|
    ensures r.0.Some? <==> StartsGroup(u, tag)
  {
    var g := Tagged(u, tag);
    if g.Some? then (Some(g.value.0), g.value.1) else (None, u)
  }

  /** The optional pre-release group `(a|b|rc)\d+`, alternatives in order. */
  function PreRelease(u: string): (r: (Option<string>, Option<nat>, string))
    ensures |r.2| <= |u|
    ensures r.0.Some? <==> r.1.Some?
    ensures r.0.Some? ==> r.0.value in ["a", "b", "rc"]
  {
    var a := Tagged(u, "a");
    var b := Tagged(u, "b");
    var rc := Tagged(u, "rc");
    if a.Some? then (Some("a"), Some(a.value.0), a.value.1)
    else if b.Some? then (Some("b"), Some(b.value.0), b.value.1)
    else if rc.Some? then (Some("rc"), Some(rc.value.0), rc.value.1)
    else (None, None, u)
  }

  /** The greedy match of everything before `rest`: the version and the text
      left for `rest`, or nothing when `major.minor` is not there. */
  function Match(s: string): (r: Option<(Version, string)>)
    ensures r.Some? ==> |r.value.1| <= |s|
  {
    var major := DigitPrefix(s);
    var minor := Tagged(s[|major|..], ".");
    if major == [] || minor.None? then None
    else
      var (patch, afterPatch) := Optional(minor.value.1, ".");
      var (preId, preNumber, afterPre) := PreRelease(afterPatch);
      var (dev, afterDev) := Optional(afterPre, ".dev");
      Some((Version(DigitsValue(major), minor.value.0, patch, preId, preNumber, dev), afterDev))
  }

  /** A version has a pre-release identifier exactly when it has a
      pre-release number, and the identifier is one of the three. */
  predicate WellFormed(v: Version) {
    && (v.preId.Some? <==> v.preNumber.Some?)
    && (v.preId.Some? ==> v.preId.value in ["a", "b", "rc"])
  }

  /** The parse: a match with no `rest` (Python's `.` does not match a line
      break, so `rest` is absent when a line break follows). */
  function Parse(s: string): (r: Result<Version, string>)
    ensures r.Success? ==> WellFormed(r.value)
    ensures r.Failure? ==> r.error == InvalidVersion
  {
    match Match(s)
    case None => Failure(InvalidVersion)
    case Some((v, rest)) =>
      if rest == [] || rest[0] == '\n' then Success(v) else Failure(InvalidVersion)
  }

  /** The canonical text of a version. */
  function Render(v: Version): string {
    NatToString(v.major) + ("." + NatToString(v.minor)
    + (GroupText(".", v.patch) + (PreText(v.preId, v.preNumber) + GroupText(".dev", v.dev))))
  }

  /** An optional group's text: the tag and the number, or nothing. */
  function GroupText(tag: string, n: Option<nat>): string {
    if n.Some? then tag + NatToString(n.value) else ""
  }

  function PreText(preId: Option<string>, preNumber: Option<nat>): string {
    if preId.Some? && preNumber.Some? then preId.value + NatToString(preNumber.value) else ""
  }

  /** Text that cannot extend the last group of a rendered version: nothing,
      a single non-digit, or a non-digit that starts no group. */
  predicate Stops(t: string) {
    t == [] || (!IsDigit(t[0]) && (|t| == 1 || (t[0] != '.' && t[0] != 'a' && t[0] != 'b' && t[0] != 'r')))
  }

  predicate NoLeadingDigit(u: string) {
    u == [] || !IsDigit(u[0])
  }

  lemma {:induction false} DigitPrefixOf(d: string, after: string)
    requires AllDigits(d) && NoLeadingDigit(after)
    ensures DigitPrefix(d + after) == d
  {
    if d != [] {
      assert (d + after)[1..] == d[1..] + after;
      DigitPrefixOf(d[1..], after);
      assert [d[0]] + d[1..] == d;
    } else {
      assert d + after == after;
    }
  }

  /** `tag`, digits, then a non-digit or the end: the group with the digits'
      value, and the text after it. */
  lemma TaggedHit(tag: string, d: string, after: string)
    requires d != [] && AllDigits(d) && NoLeadingDigit(after)
    ensures Tagged(tag + d + after, tag) == Some((DigitsValue(d), after))
  {
    var u := tag + d + after;
    assert u[..|tag|] == tag;
    assert u[|tag|] == d[0];
    assert u[|tag|..] == d + after;
    DigitPrefixOf(d, after);
    assert u[|tag|..][|d|..] == after;
  }

  /** An optional group followed by text with no leading digit, and when the
      group is absent by text that does not start it, is matched exactly. */
  lemma OptionalAt(tag: string, n: Option<nat>, after: string)
    requires NoLeadingDigit(after)
    requires n.None? ==> !StartsGroup(after, tag)
    ensures Optional(GroupText(tag, n) + after, tag) == (n, after)
  {
    if n.Some? {
      DigitsValueOfNatToString(n.value);
      TaggedHit(tag, NatToString(n.value), after);
    } else {
      assert GroupText(tag, n) + after == after;
    }
  }

  lemma PreReleaseAt(preId: Option<string>, preNumber: Option<nat>, after: string)
    requires preId.Some? <==> preNumber.Some?
    requires preId.Some? ==> preId.value in ["a", "b", "rc"]
    requires NoLeadingDigit(after)
    requires preId.None? ==> !StartsGroup(after, "a") && !StartsGroup(after, "b") && !StartsGroup(after, "rc")
    ensures PreRelease(PreText(preId, preNumber) + after) == (preId, preNumber, after)
  {
    var u := PreText(preId, preNumber) + after;
    if preId.Some? {
      var id := preId.value;
      DigitsValueOfNatToString(preNumber.value);
      TaggedHit(id, NatToString(preNumber.value), after);
      assert u[0] == id[0];
      if id != "a" {
        assert u[..1][0] == u[0];
        assert u[..1] != "a" by {
          assert u[..1][0] != "a"[0];
        }
        if id == "rc" {
          assert u[..1] != "b" by {
            assert u[..1][0] != "b"[0];
          }
        }
      }
    } else {
      assert u == after;
    }
  }

  /** The text after the minor number starts with no digit. */
  lemma NoLeadingDigitAfter(v: Version, t: string)
    requires WellFormed(v) && Stops(t)
    ensures NoLeadingDigit(GroupText(".dev", v.dev) + t)
    ensures NoLeadingDigit(PreText(v.preId, v.preNumber) + (GroupText(".dev", v.dev) + t))
    ensures NoLeadingDigit(GroupText(".", v.patch) + (PreText(v.preId, v.preNumber) + (GroupText(".dev", v.dev) + t)))
  {
    var u := GroupText(".dev", v.dev) + t;
    if v.dev.Some? {
      assert u[0] == '.';
    } else {
      assert u == t;
    }
    if |u| > 1 {
      assert u[..1][0] == u[0] && u[..2][0] == u[0];
    }
    var w := PreText(v.preId, v.preNumber) + u;
    if v.preId.Some? {
      assert w[0] == v.preId.value[0];
    } else {
      assert w == u;
    }
    if v.patch.Some? {
      assert (GroupText(".", v.patch) + w)[0] == '.';
    } else {
      assert GroupText(".", v.patch) + w == w;
    }
  }

  /** Where a group is absent, what follows does not start it. */
  lemma AbsentGroupsNotStarted(v: Version, t: string)
    requires WellFormed(v) && Stops(t)
    ensures v.dev.None? ==> !StartsGroup(t, ".dev")
    ensures v.preId.None? ==> var u := GroupText(".dev", v.dev) + t;
      !StartsGroup(u, "a") && !StartsGroup(u, "b") && !StartsGroup(u, "rc")
    ensures v.patch.None? ==> !StartsGroup(PreText(v.preId, v.preNumber) + (GroupText(".dev", v.dev) + t), ".")
  {
    if v.dev.None? && |t| > 4 {
      assert t[..4][0] == t[0];
    }
    var u := GroupText(".dev", v.dev) + t;
    if v.dev.Some? {
      assert u[0] == '.';
    } else {
      assert u == t;
    }
    if |u| > 1 {
      assert u[..1][0] == u[0] && u[..2][0] == u[0];
    }
    var w := PreText(v.preId, v.preNumber) + u;
    if v.patch.None? {
      if v.preId.Some? {
        assert w[0] == v.preId.value[0];
      } else if v.dev.Some? {
        assert w[1] == 'd';
      } else {
        assert w == t;
      }
    }
  }

  /** Matching a rendered version followed by text that cannot extend it
      recovers the version and leaves the text. */
  lemma MatchRender(v: Version, t: string)
    requires WellFormed(v) && Stops(t)
    ensures Match(Render(v) + t) == Some((v, t))
  {
    var major := NatToString(v.major);
    var minor := NatToString(v.minor);
    var afterPre := GroupText(".dev", v.dev) + t;
    var afterPatch := PreText(v.preId, v.preNumber) + afterPre;
    var afterMinor := GroupText(".", v.patch) + afterPatch;
    var s := Render(v) + t;
    assert s == major + ("." + minor + afterMinor);
    NoLeadingDigitAfter(v, t);
    AbsentGroupsNotStarted(v, t);
    DigitPrefixOf(major, "." + minor + afterMinor);
    assert s[|major|..] == "." + minor + afterMinor;
    DigitsValueOfNatToString(v.major);
    DigitsValueOfNatToString(v.minor);
    TaggedHit(".", minor, afterMinor);
    OptionalAt(".", v.patch, afterPatch);
    PreReleaseAt(v.preId, v.preNumber, afterPre);
    OptionalAt(".dev", v.dev, t);
  }

  /** Parsing the canonical text of a version gives the version back. */
  lemma ParseRender(v: Version)
    requires WellFormed(v)
    ensures Parse(Render(v)) == Success(v)
  {
    MatchRender(v, "");
    assert Render(v) + "" == Render(v);
  }

  /** Any trailing character that is neither a digit nor a line break is
      left over for `rest` and rejects the string. */
  lemma TrailingCharRejected(v: Version, c: char)
    requires WellFormed(v) && !IsDigit(c) && c != '\n'
    ensures Parse(Render(v) + [c]) == Failure(InvalidVersion)
  {
    MatchRender(v, [c]);
  }

  /** A line break ends the version: whatever follows it is ignored. */
  lemma LineBreakEndsVersion(v: Version, t: string)
    requires WellFormed(v)
    ensures Parse(Render(v) + "\n" + t) == Success(v)
  {
    var u := "\n" + t;
    var r := Render(v);
    assert r + "\n" + t == r + u;
    assert Match(r + u) == Some((v, u)) by {
      MatchRender(v, u);
    }
  }

  /** The minor component is mandatory: a number not followed by "." and a
      digit is rejected, "1", "1." and "1.x" alike. */
  lemma MinorRequired(n: nat, t: string)
    requires NoLeadingDigit(t) && !StartsGroup(t, ".")
    ensures Parse(NatToString(n) + t) == Failure(InvalidVersion)
  {
    var s := NatToString(n) + t;
    DigitPrefixOf(NatToString(n), t);
    assert s[|NatToString(n)|..] == t;
  }
}
