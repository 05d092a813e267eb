/** The profile search of `WhiteAngel.search_username`: seven fixed
    platform URL templates, one HEAD probe per platform, and the list of
    platforms that answered. */
module Username {
  import opened Sequences

  /** A platform name and the profile URL built for the searched name. */
  datatype Profile = Profile(platform: string, url: string)

  /** The outcome of `requests.head(url, timeout=5, allow_redirects=True)`:
      the final status code, or an exception of any kind. */
  datatype Probe = Responded(status: int) | Raised

  /** A probe counts the platform as found: a response with a status below 400. */
  predicate Reached(probe: Probe)
  {
    probe.Responded? && probe.status < 400
  }

  /** Platform names and URL prefixes, in the order they are probed. */
  const Platforms: seq<(string, string)> := [
    ("VK", "https://vk.com/"),
    ("Telegram", "https://t.me/"),
    ("GitHub", "https://github.com/"),
    ("Instagram", "https://instagram.com/"),
    ("Twitter/X", "https://twitter.com/"),
    ("YouTube", "https://youtube.com/@"),
    ("Steam", "https://steamcommunity.com/id/")
  ]

  /** The `platforms` list: each template filled in with the username. */
  function Targets(username: string): (targets: seq<Profile>)
  {
    seq(|Platforms|, i requires 0 <= i < |Platforms| => Profile(Platforms[i].0, Platforms[i].1 + username))
  }

  /** The targets whose probe reached them, in probing order. */
  function Select(targets: seq<Profile>, probes: seq<Probe>): (found: seq<Profile>)
    requires |probes| == |targets|
    ensures |found| <= |targets|
  {
    if targets == [] then []
    else (if Reached(probes[0]) then [targets[0]] else []) + Select(targets[1..], probes[1..])
  }

  /** The loop of `search_username`: probe each platform in turn and keep
      those that answered with a status below 400; a status of 400 or more
      and a raised exception both leave the platform out. */
  method CollectFound(username: string, probes: seq<Probe>) returns (found: seq<Profile>)
    requires |probes| == |Platforms|
    ensures found == Select(Targets(username), probes)
  {
    var targets := Targets(username);
    found := [];
    for i := 0 to |targets|
      invariant found + Select(targets[i..], probes[i..]) == Select(targets, probes)
    {
      ghost var rest := Select(targets[i + 1..], probes[i + 1..]);
      SelectStep(targets, probes, i);
      match probes[i]
      case Responded(status) =>
        if status < 400 {
          assert (found + [targets[i]]) + rest == found + ([targets[i]] + rest);
          found := found + [targets[i]];
        } else {
          assert [] + rest == rest;
        }
      case Raised =>
        assert [] + rest == rest;
    }
  }

  /** Selecting from position `i` on decides target `i`, then moves on. */
  lemma SelectStep(targets: seq<Profile>, probes: seq<Probe>, i: nat)
    requires |probes| == |targets| && i < |targets|
    ensures Select(targets[i..], probes[i..]) ==
      (if Reached(probes[i]) then [targets[i]] else []) + Select(targets[i + 1..], probes[i + 1..])
  {
    assert targets[i..][1..] == targets[i + 1..];
    assert probes[i..][1..] == probes[i + 1..];
  }

  /** The found list keeps the probing order: it is a subsequence of the targets. */
  lemma {:induction false} SelectIsSubsequence(targets: seq<Profile>, probes: seq<Probe>)
    requires |probes| == |targets|
    ensures IsSubsequence(Select(targets, probes), targets)
  {
    if targets != [] {
      var rest := Select(targets[1..], probes[1..]);
      SelectIsSubsequence(targets[1..], probes[1..]);
      var found := Select(targets, probes);
      if Reached(probes[0]) {
        assert found[0] == targets[0] && found[1..] == rest;
      } else if rest != [] {
        assert found == rest;
      }
    }
  }

  /** A profile is found exactly when it is one of the targets whose probe
      reached it. */
  lemma {:induction false} SelectMembership(targets: seq<Profile>, probes: seq<Probe>, p: Profile)
    requires |probes| == |targets|
    ensures p in Select(targets, probes) <==>
      exists i :: 0 <= i < |targets| && targets[i] == p && Reached(probes[i])
  {
    if targets != [] {
      SelectMembership(targets[1..], probes[1..], p);
      if p in Select(targets[1..], probes[1..]) {
        var i :| 0 <= i < |targets[1..]| && targets[1..][i] == p && Reached(probes[1..][i]);
        assert targets[i + 1] == p && Reached(probes[i + 1]);
      }
      if exists i :: 0 <= i < |targets| && targets[i] == p && Reached(probes[i]) {
        var i :| 0 <= i < |targets| && targets[i] == p && Reached(probes[i]);
        if i > 0 {
          assert targets[1..][i - 1] == p && Reached(probes[1..][i - 1]);
        }
      }
    }
  }

  /** Every probe reaching its platform finds all targets; none reaching finds none. */
  lemma {:induction false} SelectExtremes(targets: seq<Profile>, probes: seq<Probe>)
    requires |probes| == |targets|
    ensures (forall i :: 0 <= i < |probes| ==> Reached(probes[i])) ==> Select(targets, probes) == targets
    ensures (forall i :: 0 <= i < |probes| ==> !Reached(probes[i])) ==> Select(targets, probes) == []
  {
    if targets != [] {
      SelectExtremes(targets[1..], probes[1..]);
      if forall i :: 0 <= i < |probes| ==> Reached(probes[i]) {
        assert forall i :: 0 <= i < |probes[1..]| ==> Reached(probes[1..][i]) by {
          forall i | 0 <= i < |probes[1..]| ensures Reached(probes[1..][i]) {
            assert probes[1..][i] == probes[i + 1];
          }
        }
      }
      if forall i :: 0 <= i < |probes| ==> !Reached(probes[i]) {
        assert forall i :: 0 <= i < |probes[1..]| ==> !Reached(probes[1..][i]) by {
          forall i | 0 <= i < |probes[1..]| ensures !Reached(probes[1..][i]) {
            assert probes[1..][i] == probes[i + 1];
          }
        }
      }
    }
  }

  /** Each found profile is one of the seven platforms with the username
      appended to its prefix, and there are at most seven. */
  lemma FoundProfiles(username: string, probes: seq<Probe>)
    requires |probes| == |Platforms|
    ensures |Select(Targets(username), probes)| <= 7
    ensures forall p :: p in Select(Targets(username), probes) ==>
      exists i :: 0 <= i < |Platforms| && p == Profile(Platforms[i].0, Platforms[i].1 + username) && Reached(probes[i])
  {
    forall p | p in Select(Targets(username), probes)
      ensures exists i :: 0 <= i < |Platforms| && p == Profile(Platforms[i].0, Platforms[i].1 + username) && Reached(probes[i])
    {
      SelectMembership(Targets(username), probes, p);
    }
  }
}
