/** The feedback page (app/feedback/page.tsx): a two-step form whose second step collects a
    four-criterion star rating per cookie in a map keyed by the cookie's name, then submits
    everything at once. */
module FeedbackForm {
  import opened Wrappers

  /** One cookie's scores; 0 means not yet rated. */
  datatype Scores = Scores(taste: int, texture: int, smell: int, aftertaste: int)

  const Unrated: Scores := Scores(0, 0, 0, 0)

  datatype Criterion = Taste | Texture | Smell | Aftertaste

  /** A menu entry as the page uses it. */
  datatype Cookie = Cookie(id: int, name: string)

  datatype UserInfo = UserInfo(fullName: string, facebookName: string, email: string)
  datatype GeneralFeedback = GeneralFeedback(favoriteCookie: string, finalThoughts: string)

  /** The row inserted into `feedbacks`. */
  datatype Submission = Submission(user: UserInfo, general: GeneralFeedback, ratings: map<string, Scores>)

  function ScoreOf(s: Scores, c: Criterion): int {
    match c
    case Taste => s.taste
    case Texture => s.texture
    case Smell => s.smell
    case Aftertaste => s.aftertaste
  }

  /** `setCurrentRating({...currentRating, [criterion]: v})`: one criterion changes, the other
      three stay. */
  function SetScore(s: Scores, c: Criterion, v: int): (r: Scores)
    ensures ScoreOf(r, c) == v
    ensures forall d :: d != c ==> ScoreOf(r, d) == ScoreOf(s, d)
  {
    match c
    case Taste => s.(taste := v)
    case Texture => s.(texture := v)
    case Smell => s.(smell := v)
    case Aftertaste => s.(aftertaste := v)
  }

  /** `{...prev, [name]: scores}`: the entry for `name` is set, every other entry is kept, and
      none is added besides it. */
  function WithRating(ratings: map<string, Scores>, name: string, scores: Scores): (m: map<string, Scores>)
    ensures name in m && m[name] == scores
    ensures forall k :: k != name ==> (k in m <==> k in ratings)
    ensures forall k :: k != name && k in ratings ==> m[k] == ratings[k]
    ensures |m| >= 1
  {
    ratings[name := scores]
  }

  /** Saving twice for the same cookie keeps only the later scores. */
  lemma SaveOverwrites(ratings: map<string, Scores>, name: string, first: Scores, second: Scores)
    ensures WithRating(WithRating(ratings, name, first), name, second) == WithRating(ratings, name, second)
  {
    var lhs := WithRating(WithRating(ratings, name, first), name, second);
    var rhs := WithRating(ratings, name, second);
    assert lhs.Keys == rhs.Keys;
  }

  // ---------------------------------------------------------------------------------------
  // The star widget
  // ---------------------------------------------------------------------------------------

  /** `star <= (hover || value)`: the hovered star decides while the mouse is over the widget,
      the stored value otherwise. */
  predicate StarFilled(star: int, hover: int, value: int) {
    star <= (if hover != 0 then hover else value)
  }

  /** The filled stars are always the first ones, up to the hovered star or else the value. */
  lemma FilledStarsFormPrefix(s1: int, s2: int, hover: int, value: int)
    requires s1 <= s2
    ensures StarFilled(s2, hover, value) ==> StarFilled(s1, hover, value)
    ensures hover == 0 ==> (StarFilled(s2, hover, value) <==> s2 <= value)
    ensures hover != 0 ==> (StarFilled(s2, hover, value) <==> s2 <= hover)
  {
  }

  // ---------------------------------------------------------------------------------------
  // The page
  // ---------------------------------------------------------------------------------------

  class FeedbackPage {
    var step: int
    var userInfo: UserInfo
    var general: GeneralFeedback
    var ratings: map<string, Scores>
    var selected: Option<Cookie>
    var currentRating: Scores
    var isSubmitting: bool
    var isSubmitted: bool
    /** The rows inserted, oldest first. */
    var submissions: seq<Submission>

    /** The page is on its first (details) or second (ratings) step. */
    predicate Valid()
      reads this
    {
      step == 1 || step == 2
    }

    constructor ()
      ensures step == 1 && ratings == map[] && selected == None && currentRating == Unrated
      ensures !isSubmitting && !isSubmitted && submissions == []
      ensures Valid()
    {
      step := 1;
      userInfo := UserInfo("", "", "");
      general := GeneralFeedback("", "");
      ratings := map[];
      selected := None;
      currentRating := Unrated;
      isSubmitting := false;
      isSubmitted := false;
      submissions := [];
    }

    /** `handleInfoSubmit`: on to the ratings step. */
    method InfoSubmit()
      modifies this
      ensures step == 2 && Valid()
      ensures ratings == old(ratings) && selected == old(selected) && currentRating == old(currentRating)
      ensures userInfo == old(userInfo) && general == old(general)
      ensures isSubmitting == old(isSubmitting) && submissions == old(submissions) && isSubmitted == old(isSubmitted)
    {
      step := 2;
    }

    /** The back arrow: to the details step, keeping every rating. */
    method Back()
      modifies this
      ensures step == 1 && Valid()
      ensures ratings == old(ratings) && selected == old(selected) && currentRating == old(currentRating)
      ensures userInfo == old(userInfo) && general == old(general)
      ensures isSubmitting == old(isSubmitting) && submissions == old(submissions) && isSubmitted == old(isSubmitted)
    {
      step := 1;
    }

    /** `openRatingModal`: the cookie is selected and its saved scores loaded, or all zeros when
        it has none. */
    method OpenRatingModal(cookie: Cookie)
      modifies this
      ensures selected == Some(cookie)
      ensures currentRating == if cookie.name in ratings then ratings[cookie.name] else Unrated
      ensures ratings == old(ratings) && step == old(step)
      ensures userInfo == old(userInfo) && general == old(general)
      ensures isSubmitting == old(isSubmitting) && submissions == old(submissions) && isSubmitted == old(isSubmitted)
    {
      selected := Some(cookie);
      if cookie.name in ratings {
        currentRating := ratings[cookie.name];
      } else {
        currentRating := Unrated;
      }
    }

    /** A click on star `star` of one criterion in the open dialog. */
    method RateCriterion(c: Criterion, star: int)
      requires 1 <= star <= 5
      modifies this
      ensures ScoreOf(currentRating, c) == star
      ensures forall d :: d != c ==> ScoreOf(currentRating, d) == ScoreOf(old(currentRating), d)
      ensures ratings == old(ratings) && selected == old(selected) && step == old(step)
      ensures userInfo == old(userInfo) && general == old(general)
      ensures isSubmitting == old(isSubmitting) && submissions == old(submissions) && isSubmitted == old(isSubmitted)
    {
      currentRating := SetScore(currentRating, c, star);
    }

    /** The close button of the dialog: the scores being edited are dropped. */
    method CloseModal()
      modifies this
      ensures selected == None
      ensures ratings == old(ratings) && currentRating == old(currentRating) && step == old(step)
      ensures userInfo == old(userInfo) && general == old(general)
      ensures isSubmitting == old(isSubmitting) && submissions == old(submissions) && isSubmitted == old(isSubmitted)
    {
      selected := None;
    }

    /** `saveRating`: without a selected cookie nothing happens; otherwise the scores are stored
        under the cookie's name, every other entry is kept and the dialog closes. */
    method SaveRating()
      modifies this
      ensures old(selected).None? ==> unchanged(this)
      ensures old(selected).Some? ==>
                && ratings == WithRating(old(ratings), old(selected).value.name, old(currentRating))
                && selected == None
      ensures currentRating == old(currentRating) && step == old(step)
      ensures userInfo == old(userInfo) && general == old(general)
      ensures isSubmitting == old(isSubmitting) && submissions == old(submissions) && isSubmitted == old(isSubmitted)
    {
      if selected.Some? {
        ratings := WithRating(ratings, selected.value.name, currentRating);
        selected := None;
      }
    }

    /** The submit button is disabled while a submission runs or while no cookie is rated. */
    predicate SubmitDisabled()
      reads this
    {
      isSubmitting || |ratings| == 0
    }

    /** `handleFinalSubmit`: with no cookie rated nothing is inserted; otherwise one row with the
        details, the general feedback and the ratings is inserted, and the thank-you screen shows
        when `inserted` (the database's answer) is true. */
    method FinalSubmit(inserted: bool)
      modifies this
      ensures |old(ratings)| == 0 ==> unchanged(this)
      ensures |old(ratings)| > 0 ==>
                && submissions == old(submissions) + [Submission(userInfo, general, ratings)]
                && !isSubmitting
                && isSubmitted == (old(isSubmitted) || inserted)
      ensures ratings == old(ratings) && selected == old(selected) && currentRating == old(currentRating)
      ensures step == old(step) && userInfo == old(userInfo) && general == old(general)
    {
      if |ratings| == 0 {
        return;
      }
      isSubmitting := true;
      submissions := submissions + [Submission(userInfo, general, ratings)];
      isSubmitting := false;
      if inserted {
        isSubmitted := true;
      }
    }
  }
}
