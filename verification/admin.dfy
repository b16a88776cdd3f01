/** The admin page: the search box over user profiles and the badge style of a
    subscription or plan status. */
module Admin {
  import opened Wrappers
  import Text
  import Tables

  /** A row of the profiles table as the page lists it. */
  datatype UserProfile = UserProfile(id: string, userId: string, email: Option<string>, fullName: Option<string>, createdAt: string)

  /** `field?.toLowerCase() || ""`: a missing field is searched as the empty string. */
  function Searchable(field: Option<string>): string {
    if field.None? then "" else Text.Lower(field.value)
  }

  /** The filter's test: the lower-cased search occurs in the lower-cased email or name. */
  predicate Matches(p: UserProfile, search: string): (r: bool)
    ensures search == "" ==> r
    ensures p.email.None? && p.fullName.None? ==> (r <==> search == "")
  {
    assert Text.StartsWith(Searchable(p.email), "");
    Text.ContainsInEmpty(Text.Lower(search));
    Text.Contains(Searchable(p.email), Text.Lower(search)) || Text.Contains(Searchable(p.fullName), Text.Lower(search))
  }

  /** `filteredProfiles`: the profiles the search matches, in their original order, each
      as often as it occurs in the list. */
  function FilteredProfiles(ps: seq<UserProfile>, search: string): (r: seq<UserProfile>)
    ensures |r| <= |ps|
    ensures Text.IsSubsequence(r, ps)
    ensures forall i :: 0 <= i < |r| ==> Matches(r[i], search)
    ensures forall i :: 0 <= i < |ps| && Matches(ps[i], search) ==> ps[i] in r
    decreases |ps|
  {
    if |ps| == 0 then []
    else
      var rest := FilteredProfiles(ps[1..], search);
      assert forall i :: 1 <= i < |ps| ==> ps[i] == ps[1..][i - 1];
      if Matches(ps[0], search) then
        assert ([ps[0]] + rest)[1..] == rest;
        [ps[0]] + rest
      else
        Text.SubsequenceCons(ps[0], rest, ps[1..]);
        assert [ps[0]] + ps[1..] == ps;
        rest
  }

  /** Each matching profile is listed as many times as it occurs, and any other not at
      all. */
  lemma {:induction false} FilterCounts(ps: seq<UserProfile>, search: string, p: UserProfile)
    ensures multiset(FilteredProfiles(ps, search))[p] == if Matches(p, search) then multiset(ps)[p] else 0
    decreases |ps|
  {
    if |ps| > 0 {
      var rest := FilteredProfiles(ps[1..], search);
      FilterCounts(ps[1..], search, p);
      assert [ps[0]] + ps[1..] == ps;
      CountCons(ps[0], ps[1..]);
      if Matches(ps[0], search) {
        assert FilteredProfiles(ps, search) == [ps[0]] + rest;
        CountCons(ps[0], rest);
      } else {
        assert FilteredProfiles(ps, search) == rest;
      }
    }
  }

  lemma {:induction false} CountCons(x: UserProfile, xs: seq<UserProfile>)
    ensures multiset([x] + xs) == multiset{x} + multiset(xs)
  {
  }

  /** A profile is listed exactly when the search matches it. */
  lemma {:induction false} FilteredMembers(ps: seq<UserProfile>, search: string, p: UserProfile)
    ensures p in FilteredProfiles(ps, search) <==> p in ps && Matches(p, search)
  {
    var r := FilteredProfiles(ps, search);
    if p in r {
      Text.SubsequenceMembers(r, ps, p);
    }
  }

  /** A list whose every profile matches is kept whole. */
  lemma {:induction false} FilterKeepsMatching(ps: seq<UserProfile>, search: string)
    requires forall i :: 0 <= i < |ps| ==> Matches(ps[i], search)
    ensures FilteredProfiles(ps, search) == ps
    decreases |ps|
  {
    if |ps| > 0 {
      assert forall i :: 1 <= i < |ps| ==> ps[1..][i - 1] == ps[i];
      FilterKeepsMatching(ps[1..], search);
      assert [ps[0]] + ps[1..] == ps;
    }
  }

  /** An empty search box lists every profile. */
  lemma {:induction false} EmptySearchKeepsAll(ps: seq<UserProfile>)
    ensures FilteredProfiles(ps, "") == ps
  {
    forall i | 0 <= i < |ps|
      ensures Matches(ps[i], "")
    {
      assert Text.StartsWith(Searchable(ps[i].email), "");
    }
    FilterKeepsMatching(ps, "");
  }

  /** A profile with neither email nor name is listed only while the search is empty. */
  lemma {:induction false} AnonymousProfile(p: UserProfile, search: string)
    requires p.email.None? && p.fullName.None?
    ensures Matches(p, search) <==> search == ""
  {
    Text.ContainsInEmpty(Text.Lower(search));
  }

  /** Searching the listed profiles again with the same search lists the same profiles. */
  lemma {:induction false} FilterIdempotent(ps: seq<UserProfile>, search: string)
    ensures FilteredProfiles(FilteredProfiles(ps, search), search) == FilteredProfiles(ps, search)
  {
    FilterKeepsMatching(FilteredProfiles(ps, search), search);
  }

  /** The search ignores the case of what is typed. */
  lemma {:induction false} SearchIgnoresCase(ps: seq<UserProfile>, search: string)
    ensures FilteredProfiles(ps, Text.Lower(search)) == FilteredProfiles(ps, search)
    decreases |ps|
  {
    LowerIdempotent(search);
    if |ps| > 0 {
      SearchIgnoresCase(ps[1..], search);
    }
  }

  lemma {:induction false} LowerIdempotent(s: string)
    ensures Text.Lower(Text.Lower(s)) == Text.Lower(s)
  {
  }

  /** A search whose lower-cased text contains another's lists no profile the other does
      not, in the same order. */
  lemma {:induction false} FilterNarrows(ps: seq<UserProfile>, wide: string, narrow: string)
    requires Text.Contains(Text.Lower(narrow), Text.Lower(wide))
    ensures Text.IsSubsequence(FilteredProfiles(ps, narrow), FilteredProfiles(ps, wide))
    decreases |ps|
  {
    if |ps| > 0 {
      FilterNarrows(ps[1..], wide, narrow);
      var a := FilteredProfiles(ps[1..], narrow);
      var b := FilteredProfiles(ps[1..], wide);
      if Matches(ps[0], narrow) {
        if Text.Contains(Searchable(ps[0].email), Text.Lower(narrow)) {
          Text.ContainsTrans(Searchable(ps[0].email), Text.Lower(narrow), Text.Lower(wide));
        } else {
          Text.ContainsTrans(Searchable(ps[0].fullName), Text.Lower(narrow), Text.Lower(wide));
        }
        assert ([ps[0]] + a)[1..] == a && ([ps[0]] + b)[1..] == b;
      } else if Matches(ps[0], wide) {
        Text.SubsequenceCons(ps[0], a, b);
      }
    }
  }

  /** Typing one more character never brings back a profile. */
  lemma {:induction false} TypingNarrows(ps: seq<UserProfile>, search: string, c: char)
    ensures Text.IsSubsequence(FilteredProfiles(ps, search + [c]), FilteredProfiles(ps, search))
  {
    assert Text.Lower(search + [c]) == "" + Text.Lower(search) + [Text.LowerChar(c)];
    Text.ContainsInside("", Text.Lower(search), [Text.LowerChar(c)]);
    FilterNarrows(ps, search, search + [c]);
  }

  // ---------------------------------------------------------------------------
  // Status badges.

  /** `variants` in `getStatusBadge`. */
  const StatusVariants: seq<(string, string)> := [
    ("active", "bg-accent/15 text-accent border-accent/30"),
    ("cancelled", "bg-destructive/15 text-destructive border-destructive/30"),
    ("expired", "bg-muted text-muted-foreground border-border")
  ]

  /** `getStatusBadge`: the status's style, the expired style for any other status. */
  function StatusBadge(status: string): (r: string)
    ensures status == "active" ==> r == StatusVariants[0].1
    ensures status == "cancelled" ==> r == StatusVariants[1].1
    ensures status != "active" && status != "cancelled" ==> r == StatusVariants[2].1
    ensures r == StatusVariants[2].1 <==> status != "active" && status != "cancelled"
  {
    StatusLookups();
    Tables.Lookup(StatusVariants, status).GetOr(StatusVariants[2].1)
  }

  lemma {:induction false} StatusLookups()
    ensures forall k :: 0 <= k < |StatusVariants| ==> Tables.Lookup(StatusVariants, StatusVariants[k].0) == Some(StatusVariants[k].1)
    ensures StatusVariants[0].1 != StatusVariants[2].1 && StatusVariants[1].1 != StatusVariants[2].1
  {
    assert Tables.DistinctKeys(StatusVariants);
    Tables.LookupAt(StatusVariants, 0);
    Tables.LookupAt(StatusVariants, 1);
    Tables.LookupAt(StatusVariants, 2);
  }

  /** Active and cancelled statuses have their own styles; every other status, known or
      not, looks expired. */
  lemma {:induction false} StatusBadgeSpec(status: string)
    ensures StatusBadge(status) ==
      if status == "active" then "bg-accent/15 text-accent border-accent/30"
      else if status == "cancelled" then "bg-destructive/15 text-destructive border-destructive/30"
      else "bg-muted text-muted-foreground border-border"
    ensures StatusBadge(status) == StatusBadge("expired") <==> status != "active" && status != "cancelled"
  {
    assert Tables.DistinctKeys(StatusVariants);
    if status == "active" {
      Tables.LookupAt(StatusVariants, 0);
    } else if status == "cancelled" {
      Tables.LookupAt(StatusVariants, 1);
    }
    Tables.LookupAt(StatusVariants, 2);
  }
}
