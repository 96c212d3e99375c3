/** Extended attribute names (src/xattr.rs): which names are internal, how internal names
    are stored in containers mode, and the filter over a NUL-terminated name list.

    A name is a string of bytes, one character a byte. */
module Xattr {
  import opened Wrappers

  datatype StatOverrideMode = NoOverride | User | Privileged | Containers

  const XATTR_PREFIX := "user.fuseoverlayfs."
  const CONTAINERS_OVERRIDE_PREFIX := "user.containers.override_"
  const UNPRIVILEGED_PREFIX := "user.overlay."
  const PRIVILEGED_PREFIX := "trusted.overlay."
  const SECURITY_PREFIX := "security."
  const NAME_MAX := 255
  const NUL := '\0'

  predicate CanAccess(name: string, mode: StatOverrideMode) {
    && !(XATTR_PREFIX <= name)
    && !(PRIVILEGED_PREFIX <= name)
    && !(UNPRIVILEGED_PREFIX <= name)
    && !(mode == Containers && SECURITY_PREFIX <= name)
  }

  function Inner(name: string): string
    requires CONTAINERS_OVERRIDE_PREFIX <= name
  {
    name[|CONTAINERS_OVERRIDE_PREFIX|..]
  }

  predicate IsEncoded(name: string, mode: StatOverrideMode) {
    CONTAINERS_OVERRIDE_PREFIX <= name && !CanAccess(Inner(name), mode)
  }

  function Decode(name: string, mode: StatOverrideMode): Option<string> {
    if IsEncoded(name, mode) then Some(Inner(name))
    else if CanAccess(name, mode) then Some(name)
    else None
  }

  function Encode(name: string, mode: StatOverrideMode): Option<string> {
    if CanAccess(name, mode) then Some(name)
    else if mode != Containers then None
    else if |name| + |CONTAINERS_OVERRIDE_PREFIX| > NAME_MAX then None
    else Some(CONTAINERS_OVERRIDE_PREFIX + name)
  }

  /** No internal prefix and the override prefix extend one another, so a name that carries
      the override prefix is itself accessible. */
  lemma OverridePrefixIsAccessible(name: string, mode: StatOverrideMode)
    requires CONTAINERS_OVERRIDE_PREFIX <= name
    ensures CanAccess(name, mode)
  {
    assert name[5] == 'c' && name[0] == 'u';
    assert XATTR_PREFIX[5] == 'f' && UNPRIVILEGED_PREFIX[5] == 'o';
    assert PRIVILEGED_PREFIX[0] == 't' && SECURITY_PREFIX[0] == 's';
  }

  /** A stored name that is shown to the user as `shown` is what the user's `shown` would be
      stored as, exactly when it is not of the encoded form, or containers mode is on and it
      is no longer than the limit. */
  lemma ShownNameIsStoredBack(stored: string, mode: StatOverrideMode)
    requires Decode(stored, mode).Some?
    ensures Encode(Decode(stored, mode).value, mode) == Some(stored)
            <==> !IsEncoded(stored, mode) || (mode == Containers && |stored| <= NAME_MAX)
  {
    if IsEncoded(stored, mode) {
      var inner := Inner(stored);
      assert CONTAINERS_OVERRIDE_PREFIX + inner == stored;
      assert |stored| == |inner| + |CONTAINERS_OVERRIDE_PREFIX|;
    }
  }

  /** Decoding what was stored gives the user's name back exactly when that name was not
      already of the encoded form. */
  lemma DecodeInvertsEncode(name: string, mode: StatOverrideMode)
    requires Encode(name, mode).Some?
    ensures Decode(Encode(name, mode).value, mode) == Some(name) <==> !IsEncoded(name, mode)
  {
    if CanAccess(name, mode) {
      if IsEncoded(name, mode) {
        assert |Inner(name)| < |name|;
      }
    } else {
      if CONTAINERS_OVERRIDE_PREFIX <= name {
        OverridePrefixIsAccessible(name, mode);
        assert false;
      }
      var stored := CONTAINERS_OVERRIDE_PREFIX + name;
      assert stored[|CONTAINERS_OVERRIDE_PREFIX|..] == name;
    }
  }

  /** Two different names are never stored under one name, unless one of them is the other's
      encoded form. */
  lemma EncodeIsInjective(a: string, b: string, mode: StatOverrideMode)
    requires Encode(a, mode).Some? && Encode(a, mode) == Encode(b, mode)
    requires !IsEncoded(a, mode) && !IsEncoded(b, mode)
    ensures a == b
  {
    DecodeInvertsEncode(a, mode);
    DecodeInvertsEncode(b, mode);
  }

  // ---- filter_xattr_list ----

  /** The first name of a list: everything before the first NUL. */
  function FirstName(buf: string): (r: string)
    ensures |r| <= |buf| && r == buf[..|r|]
    ensures NUL !in r
    ensures |r| < |buf| ==> buf[|r|] == NUL
  {
    if buf == "" || buf[0] == NUL then "" else [buf[0]] + FirstName(buf[1..])
  }

  /** One name of the list, as it is passed on: decoded and terminated, or dropped. */
  function Passed(name: string, utf8: string -> bool, mode: StatOverrideMode): string {
    if name == "" || !utf8(name) then ""
    else match Decode(name, mode)
         case Some(decoded) => decoded + [NUL]
         case None => ""
  }

  function Filtered(buf: string, utf8: string -> bool, mode: StatOverrideMode): string
    decreases |buf|
  {
    if buf == "" then ""
    else
      var name := FirstName(buf);
      Passed(name, utf8, mode) +
      if |name| == |buf| then "" else Filtered(buf[|name| + 1..], utf8, mode)
  }

  lemma Reassociate<T>(a: seq<T>, b: seq<T>, c: seq<T>)
    ensures a + (b + c) == a + b + c
  {}

  /** The end of the name that starts at `i`: the splitting of the buffer at NUL. */
  method NameEnd(buf: string, i: nat) returns (j: nat)
    requires i <= |buf|
    ensures i <= j <= |buf| && NUL !in buf[i..j]
    ensures j < |buf| ==> buf[j] == NUL
  {
    j := i;
    while j < |buf| && buf[j] != NUL
      invariant i <= j <= |buf|
      invariant NUL !in buf[i..j]
    {
      j := j + 1;
    }
  }

  /** `utf8` stands for the validity test of the standard library. */
  method FilterXattrList(buf: string, utf8: string -> bool, mode: StatOverrideMode) returns (result: string)
    ensures result == Filtered(buf, utf8, mode)
  {
    result := "";
    var i := 0;
    while i < |buf|
      invariant 0 <= i <= |buf|
      invariant result + Filtered(buf[i..], utf8, mode) == Filtered(buf, utf8, mode)
    {
      var j := NameEnd(buf, i);
      NameIsFiltered(buf, i, j, result, utf8, mode);
      result := result + Passed(buf[i..j], utf8, mode);
      i := if j < |buf| then j + 1 else j;
    }
  }

  lemma NameIsFiltered(buf: string, i: nat, j: nat, result: string, utf8: string -> bool, mode: StatOverrideMode)
    requires i < |buf| && i <= j <= |buf| && NUL !in buf[i..j] && (j < |buf| ==> buf[j] == NUL)
    ensures var next := if j < |buf| then j + 1 else j;
            result + Filtered(buf[i..], utf8, mode) == result + Passed(buf[i..j], utf8, mode) + Filtered(buf[next..], utf8, mode)
  {
    var rest, name := buf[i..], buf[i..j];
    assert name == rest[..|name|];
    FilteredStep(result, rest, name, utf8, mode);
    assert j < |buf| ==> rest[|name| + 1..] == buf[j + 1..];
  }

  /** One name of the rest of the buffer is passed on, and the list after it remains. */
  lemma FilteredStep(result: string, rest: string, name: string, utf8: string -> bool, mode: StatOverrideMode)
    requires rest != "" && |name| <= |rest| && name == rest[..|name|] && NUL !in name
    requires |name| < |rest| ==> rest[|name|] == NUL
    ensures result + Filtered(rest, utf8, mode) == result + Passed(name, utf8, mode) +
            if |name| == |rest| then "" else Filtered(rest[|name| + 1..], utf8, mode)
  {
    FirstNameIs(rest, name);
    Reassociate(result, Passed(name, utf8, mode),
                if |name| == |rest| then "" else Filtered(rest[|name| + 1..], utf8, mode));
  }

  lemma {:induction false} FirstNameIs(buf: string, name: string)
    requires |name| <= |buf| && name == buf[..|name|] && NUL !in name
    requires |name| < |buf| ==> buf[|name|] == NUL
    ensures FirstName(buf) == name
  {
    if name != "" {
      assert buf[0] == name[0] && name[0] in name;
      assert forall c :: c in name[1..] ==> c in name;
      assert buf[1..][..|name| - 1] == name[1..];
      FirstNameIs(buf[1..], name[1..]);
    }
  }

  /** A name list as the kernel hands it out: each name followed by NUL. */
  function Packed(names: seq<string>): string {
    if names == [] then "" else names[0] + [NUL] + Packed(names[1..])
  }

  /** The names a user sees, in the order of the list. */
  function Shown(names: seq<string>, utf8: string -> bool, mode: StatOverrideMode): seq<string> {
    if names == [] then []
    else if names[0] != "" && utf8(names[0]) && Decode(names[0], mode).Some? then
      [Decode(names[0], mode).value] + Shown(names[1..], utf8, mode)
    else Shown(names[1..], utf8, mode)
  }

  /** On any packed list of names, empty ones among them, the filter returns the packed list of the decoded
      names that the user may see, in order. */
  lemma {:induction false} FilterOfPacked(names: seq<string>, utf8: string -> bool, mode: StatOverrideMode)
    requires forall i :: 0 <= i < |names| ==> NUL !in names[i]
    ensures Filtered(Packed(names), utf8, mode) == Packed(Shown(names, utf8, mode))
  {
    if names != [] {
      var name, others := names[0], names[1..];
      var buf := Packed(names);
      FirstNameIs(buf, name);
      assert buf[|name| + 1..] == Packed(others);
      FilterOfPacked(others, utf8, mode);
      if name != "" && utf8(name) && Decode(name, mode).Some? {
        assert Shown(names, utf8, mode)[1..] == Shown(others, utf8, mode);
      }
    }
  }

  /** No internal name is shown unless it was stored in the encoded form. */
  lemma {:induction false} ShownNamesAreDecoded(names: seq<string>, utf8: string -> bool, mode: StatOverrideMode, shown: string)
    ensures shown in Shown(names, utf8, mode)
            <==> exists i :: 0 <= i < |names| && names[i] != "" && utf8(names[i]) && Decode(names[i], mode) == Some(shown)
  {
    if names != [] {
      ShownNamesAreDecoded(names[1..], utf8, mode, shown);
      if i :| 0 <= i < |names| && names[i] != "" && utf8(names[i]) && Decode(names[i], mode) == Some(shown) {
        if i > 0 {
          assert names[1..][i - 1] == names[i];
        }
      }
      if shown in Shown(names[1..], utf8, mode) {
        var i :| 0 <= i < |names[1..]| && names[1..][i] != "" && utf8(names[1..][i]) && Decode(names[1..][i], mode) == Some(shown);
        assert names[i + 1] == names[1..][i];
      }
    }
  }

  /** The names that belong to overlay file systems, and in containers mode to the security modules. */
  predicate Reserved(name: string, mode: StatOverrideMode) {
    || "user.fuseoverlayfs." <= name || "trusted.overlay." <= name || "user.overlay." <= name
    || (mode == Containers && "security." <= name)
  }

  /** A reserved name that is listed was stored in the encoded form; a name that is neither reserved nor
      carries the override prefix is listed as it is stored. */
  lemma ReservedNamesAreStoredEncoded(names: seq<string>, utf8: string -> bool, mode: StatOverrideMode, name: string)
    ensures name in Shown(names, utf8, mode) && Reserved(name, mode) ==> "user.containers.override_" + name in names
    ensures name != "" && !Reserved(name, mode) && !("user.containers.override_" <= name) && utf8(name) && name in names ==>
              name in Shown(names, utf8, mode)
  {
    ShownNamesAreDecoded(names, utf8, mode, name);
    if name in Shown(names, utf8, mode) && Reserved(name, mode) {
      assert !CanAccess(name, mode);
      var i :| 0 <= i < |names| && names[i] != "" && utf8(names[i]) && Decode(names[i], mode) == Some(name);
      assert IsEncoded(names[i], mode);
      assert CONTAINERS_OVERRIDE_PREFIX + Inner(names[i]) == names[i];
    }
    if name in names {
      var i :| 0 <= i < |names| && names[i] == name;
    }
  }

  /** Only in containers mode can a reserved name be set, if its encoded form is not too long, and it is
      stored under that form, which is not reserved. */
  lemma ReservedNamesAreNotStored(name: string, mode: StatOverrideMode)
    ensures Encode(name, mode).Some? <==> !Reserved(name, mode) || (mode == Containers && |"user.containers.override_" + name| <= 255)
    ensures Encode(name, mode).Some? ==>
              && !Reserved(Encode(name, mode).value, mode)
              && Encode(name, mode).value == if Reserved(name, mode) then "user.containers.override_" + name else name
  {
    if Reserved(name, mode) {
      OverridePrefixIsAccessible(CONTAINERS_OVERRIDE_PREFIX + name, mode);
    }
  }
}
