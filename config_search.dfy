/**
  Profile files: the `config` sub-command writes `org + "_gen_config"`, and the `csr`
  sub-command looks for them with `fnmatch.filter(names, "*_gen_config")`. On POSIX,
  fnmatch compares names as they are and its `*` matches any text, newlines included,
  so a name is a profile name exactly when it ends with the suffix.
*/
module ConfigSearch {

  const ProfileSuffix: string := "_gen_config"

  /**
    fnmatch's "*_gen_config": the name ends with "_gen_config". This is the glob read
    literally: some split of the name leaves `*` the text before it and the literal
    suffix after it.
  */
  predicate IsProfileName(name: string)
    ensures IsProfileName(name) <==> exists k | 0 <= k <= |name| :: name[k..] == ProfileSuffix
  {
    |name| >= |ProfileSuffix| && name[|name| - |ProfileSuffix|..] == ProfileSuffix
  }

  /**
    The file the `config` sub-command writes for an organisation: the search finds it,
    and the organisation is recovered from it.
  */
  function ProfileFileName(org: string): (r: string)
    ensures IsProfileName(r) && OrgOf(r) == org
  {
    assert (org + ProfileSuffix)[|org|..] == ProfileSuffix;
    org + ProfileSuffix
  }

  /** The organisation a profile file name was made from. */
  function OrgOf(name: string): string
    requires IsProfileName(name)
  {
    name[..|name| - |ProfileSuffix|]
  }

  /** Every name the search finds is the profile file name of the organisation it encodes. */
  lemma ProfileFileNameOfOrg(name: string)
    requires IsProfileName(name)
    ensures ProfileFileName(OrgOf(name)) == name
  {
    assert name == name[..|name| - |ProfileSuffix|] + name[|name| - |ProfileSuffix|..];
  }

  /** So different organisations never share a profile file. */
  lemma ProfileFileNameInjective(org1: string, org2: string)
    requires ProfileFileName(org1) == ProfileFileName(org2)
    ensures org1 == org2
  {
    assert org1 == OrgOf(ProfileFileName(org1));
  }

  /**
    fnmatch.filter(names, "*_gen_config"): the profile names among `names`, in their order.
    Nothing else is kept and nothing matching is dropped, and each matching name is kept
    as many times as it is listed.
  */
  function ProfileNames(names: seq<string>): (r: seq<string>)
    ensures |r| <= |names|
    ensures forall x | x in r :: x in names && IsProfileName(x)
    ensures forall x | x in names && IsProfileName(x) :: x in r
    ensures forall x :: multiset(r)[x] == if IsProfileName(x) then multiset(names)[x] else 0
  {
    if |names| == 0 then []
    else
      var rest := ProfileNames(names[1..]);
      assert forall x | x in names[1..] :: x in names;
      assert forall x | x in names :: x == names[0] || x in names[1..];
      assert names == [names[0]] + names[1..];
      (if IsProfileName(names[0]) then [names[0]] else []) + rest
  }

  /** The search over a listing with more names appended is the search over each part. */
  lemma {:induction false} ProfileNamesAppend(a: seq<string>, b: seq<string>)
    ensures ProfileNames(a + b) == ProfileNames(a) + ProfileNames(b)
    decreases |a|
  {
    if |a| == 0 {
      assert a + b == b;
    } else {
      assert (a + b)[1..] == a[1..] + b;
      ProfileNamesAppend(a[1..], b);
    }
  }
}
