/** The social-profile manager of src/pages/SocialProfiles.tsx: the
    four-field form with its "required" schema, adding a profile, deleting
    profiles, and the masked display of the API key. */
module SocialProfiles {
  import opened Wrappers
  import opened Seqs

  datatype FormValues = FormValues(platform: string, username: string, apiKey: string, proxyProfileId: string)

  /** `defaultValues`, also what `form.reset()` restores. */
  const DefaultValues := FormValues("", "", "", "")

  /** One option of a select box: its value and its label. */
  datatype Choice = Choice(id: string, name: string)

  /** `socialPlatforms` (icons left out). */
  const SocialPlatforms: seq<Choice> := [
    Choice("instagram", "Instagram"), Choice("twitter", "Twitter"),
    Choice("facebook", "Facebook"), Choice("linkedin", "LinkedIn")
  ]

  /** `proxyProfiles`. */
  const ProxyChoices: seq<Choice> := [
    Choice("1", "United States"), Choice("2", "Europe"), Choice("3", "Asia")
  ]

  datatype Profile = Profile(
    id: string,
    platform: string,
    platformName: Option<string>,
    username: string,
    apiKey: string,
    proxyProfileId: string,
    proxyProfileName: Option<string>)

  /** `choices[i]` is the first option whose value is `id`. */
  ghost predicate FirstWithId(choices: seq<Choice>, id: string, i: int) {
    && 0 <= i < |choices|
    && choices[i].id == id
    && forall j :: 0 <= j < i ==> choices[j].id != id
  }

  /** `choices.find(p => p.id === id)?.name`. */
  function FindName(choices: seq<Choice>, id: string): (r: Option<string>)
    ensures r.None? <==> forall i :: 0 <= i < |choices| ==> choices[i].id != id
    ensures r.Some? ==> exists i :: FirstWithId(choices, id, i) && choices[i].name == r.value
  {
    if choices == [] then None
    else if choices[0].id == id then
      assert FirstWithId(choices, id, 0);
      Some(choices[0].name)
    else
      var r := FindName(choices[1..], id);
      assert forall i :: 0 < i < |choices| ==> choices[i] == choices[1..][i - 1];
      assert r.Some? ==> exists i :: FirstWithId(choices, id, i) && choices[i].name == r.value by {
        if r.Some? {
          var k :| FirstWithId(choices[1..], id, k) && choices[1..][k].name == r.value;
          assert FirstWithId(choices, id, k + 1);
        }
      }
      r
  }

  /** `socialProfileSchema`: each field must have at least one character.
      The messages are listed in schema order, one per empty field. */
  function Validate(v: FormValues): (errors: seq<string>)
    ensures errors == [] <==> v.platform != "" && v.username != "" && v.apiKey != "" && v.proxyProfileId != ""
    ensures |errors| == (if v.platform == "" then 1 else 0) + (if v.username == "" then 1 else 0)
                      + (if v.apiKey == "" then 1 else 0) + (if v.proxyProfileId == "" then 1 else 0)
  {
    (if v.platform == "" then ["Platform is required"] else [])
    + (if v.username == "" then ["Username is required"] else [])
    + (if v.apiKey == "" then ["API key is required"] else [])
    + (if v.proxyProfileId == "" then ["Proxy profile is required"] else [])
  }

  /** The page state: the saved profiles, whether the add card is open,
      and the values currently in the form. */
  datatype Page = Page(profiles: seq<Profile>, adding: bool, form: FormValues)

  /** The record `onSubmit` builds; `id` is `Date.now().toString()`. */
  function NewProfile(v: FormValues, id: string): (r: Profile)
    ensures r.id == id
    ensures && r.platform == v.platform && r.username == v.username
            && r.apiKey == v.apiKey && r.proxyProfileId == v.proxyProfileId
    ensures r.platformName == FindName(SocialPlatforms, v.platform)
    ensures r.proxyProfileName == FindName(ProxyChoices, v.proxyProfileId)
    ensures r.platformName.Some? <==>
      exists i :: 0 <= i < |SocialPlatforms| && SocialPlatforms[i].id == v.platform
    ensures r.proxyProfileName.Some? <==>
      exists i :: 0 <= i < |ProxyChoices| && ProxyChoices[i].id == v.proxyProfileId
  {
    Profile(id, v.platform, FindName(SocialPlatforms, v.platform), v.username, v.apiKey,
            v.proxyProfileId, FindName(ProxyChoices, v.proxyProfileId))
  }

  /** Pressing "Save Profile": the schema check of `handleSubmit`, then
      `onSubmit`, which appends the profile, closes the card and resets the form. */
  function Submit(page: Page, id: string): (r: Page)
    ensures Validate(page.form) != [] ==> r == page
    ensures Validate(page.form) == [] ==>
      && |r.profiles| == |page.profiles| + 1
      && r.profiles[..|page.profiles|] == page.profiles
      && r.profiles[|page.profiles|] == NewProfile(page.form, id)
      && !r.adding
      && r.form == DefaultValues
  {
    if Validate(page.form) != [] then page
    else Page(page.profiles + [NewProfile(page.form, id)], false, DefaultValues)
  }

  /** A saved profile always carries four non-empty fields. */
  lemma SavedProfilesComplete(page: Page, id: string)
    requires Validate(page.form) == []
    ensures var p := Submit(page, id).profiles[|page.profiles|];
      p.platform != "" && p.username != "" && p.apiKey != "" && p.proxyProfileId != ""
  {
  }

  /** A platform chosen from the select box gets its display name. */
  lemma PlatformNameResolved(v: FormValues, id: string)
    requires v.platform == "linkedin"
    ensures NewProfile(v, id).platformName == Some("LinkedIn")
  {
  }

  /** `deleteProfile(id)`. */
  function DeleteProfile(profiles: seq<Profile>, id: string): (r: seq<Profile>)
    ensures forall p :: p in r <==> p in profiles && p.id != id
    ensures IsSubseq(r, profiles)
    ensures forall p :: multiset(r)[p] == if p.id != id then multiset(profiles)[p] else 0
  {
    FilterIsSubseq(profiles, (p: Profile) => p.id != id);
    FilterCounts(profiles, (p: Profile) => p.id != id);
    Filter(profiles, (p: Profile) => p.id != id)
  }

  /** Deleting the same id twice is the same as deleting it once. */
  lemma DeleteIdempotent(profiles: seq<Profile>, id: string)
    ensures DeleteProfile(DeleteProfile(profiles, id), id) == DeleteProfile(profiles, id)
  {
    FilterIdempotent(profiles, (p: Profile) => p.id != id);
  }

  /** Deleting an id no profile has changes nothing. */
  lemma DeleteUnknownId(profiles: seq<Profile>, id: string)
    requires forall p :: p in profiles ==> p.id != id
    ensures DeleteProfile(profiles, id) == profiles
  {
    FilterKeepsAll(profiles, (p: Profile) => p.id != id);
  }

  /** `apiKey.slice(-4)`: the last four characters, or the whole key when
      it is shorter. */
  function KeySuffix(apiKey: string): (r: string)
    ensures |r| == if |apiKey| < 4 then |apiKey| else 4
    ensures r == apiKey[|apiKey| - |r|..]
  {
    if |apiKey| < 4 then apiKey else apiKey[|apiKey| - 4..]
  }

  /** The API-key line of a profile card: twelve bullets, then the suffix. */
  function MaskedKey(apiKey: string): (r: string)
    ensures |r| == 12 + |KeySuffix(apiKey)|
    ensures forall i :: 0 <= i < 12 ==> r[i] == '•'
    ensures r[12..] == KeySuffix(apiKey)
  {
    "••••••••••••" + KeySuffix(apiKey)
  }

  /** Two keys with the same last four characters are masked alike, so the
      display reveals no more than the suffix. */
  lemma MaskRevealsOnlySuffix(k1: string, k2: string)
    requires |k1| >= 4 && |k2| >= 4 && k1[|k1| - 4..] == k2[|k2| - 4..]
    ensures MaskedKey(k1) == MaskedKey(k2)
  {
  }

  /** The dashed "No Social Profiles" card: shown when no profile card is
      listed and the add form is closed. */
  function ShowsEmptyCard(page: Page): (r: bool)
    ensures r <==> !page.adding && forall p :: p !in page.profiles
  {
    assert |page.profiles| > 0 ==> page.profiles[0] in page.profiles;
    |page.profiles| == 0 && !page.adding
  }

  /** After a successful save the empty card is gone. */
  lemma SaveHidesEmptyCard(page: Page, id: string)
    requires Validate(page.form) == []
    ensures !ShowsEmptyCard(Submit(page, id))
  {
  }
}
