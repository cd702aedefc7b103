/**
 * The profile page's edit form: it is prefilled from the loaded profile, with the skills
 * joined by `", "`, and saving sends the form with the skills text parsed back into a list.
 */
module ProfilePage {
  import opened Common
  import opened Text
  import opened Json
  import opened Api
  import opened Db
  import opened CommaList
  import opened ProfileRoute

  /** The form state; `skills` is free text. */
  datatype ProfileForm = ProfileForm(name: string, bio: string, skills: string, isOnline: bool)

  /** `fetchProfile`'s prefill: an empty name or a missing bio shows as empty text. */
  function FormOf(p: Profile): (f: ProfileForm)
    ensures f.name == p.name && f.isOnline == p.isOnline
    ensures f.bio == if p.bio.Some? then p.bio.value else ""
    ensures p.skills != [] ==> p.skills[0] <= f.skills
  {
    ProfileForm(if p.name != [] then p.name else "",
                if Truthy(p.bio) then p.bio.value else "",
                Join(p.skills, ", "),
                p.isOnline)
  }

  /**
   * `handleSave`'s body: every form field, with the skills text replaced by the parsed
   * list, whose items are non-empty, trimmed and comma-free.
   */
  function SavePayload(f: ProfileForm): (p: ProfilePatch)
    ensures p.name == Some(f.name) && p.bio == Present(Some(f.bio)) && p.isOnline == Present(f.isOnline)
    ensures p.skills == Some(ParseList(f.skills))
    ensures forall i :: 0 <= i < |p.skills.value| ==> CleanItem(p.skills.value[i])
  {
    ParsedItemsClean(f.skills);
    ProfilePatch(Some(f.name), Present(Some(f.bio)), Some(ParseList(f.skills)), Present(f.isOnline))
  }

  /** The prefilled skills text parses back to the profile's skills when they are clean. */
  lemma PrefillSkillsRoundTrip(p: Profile)
    requires forall i :: 0 <= i < |p.skills| ==> CleanItem(p.skills[i])
    ensures ParseList(FormOf(p).skills) == p.skills
  {
    ParseJoinRoundTrip(p.skills);
  }

  /**
   * Saving the form unedited keeps the name, the skills (when clean) and the online flag;
   * a missing bio comes back as the empty string.
   */
  lemma UneditedSave(u: User, p: Profile)
    requires View(u) == Ok(p)
    requires forall i :: 0 <= i < |p.skills| ==> CleanItem(p.skills[i])
    ensures ApplyPatch(u, SavePayload(FormOf(p))).name == u.name
    ensures ApplyPatch(u, SavePayload(FormOf(p))).isOnline == u.isOnline
    ensures ApplyPatch(u, SavePayload(FormOf(p))).bio == Some(if Truthy(u.bio) then u.bio.value else "")
    ensures View(ApplyPatch(u, SavePayload(FormOf(p)))) == Ok(p.(bio := Some(FormOf(p).bio)))
  {
    PrefillSkillsRoundTrip(p);
  }
}
