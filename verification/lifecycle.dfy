/**
 The formatter driver: loading a timeline from a URI and saving it to
 one through the formatter class's routines, and the formatter's project
 back-reference.

 The concrete routines do file I/O. Here they are the function values
 held in the class, so that every property holds whatever they do.
 */
module Lifecycle {
  import opened Wrappers
  import opened FormatterTypes

  /** The result of a load: the returned flag, the formatter and timeline afterwards, and the error left for the caller. */
  datatype LoadOutcome = LoadOutcome(ok: bool, formatter: Formatter, timeline: Timeline, error: Option<Error>)

  /** The result of a save: the returned flag and the error left for the caller. */
  datatype SaveOutcome = SaveOutcome(ok: bool, error: Option<Error>)

  /** The timeline as the load routine sees it: automatic updates turned off. */
  function Suspended(t: Timeline): (s: Timeline)
    ensures !s.updateEnabled && s.id == t.id && s.layers == t.layers
  {
    t.(updateEnabled := false)
  }

  /**
   `ges_formatter_load_from_uri`. With no load routine nothing happens and
   the answer is FALSE. With one, the formatter is bound to the timeline,
   the routine runs on the timeline with updates turned off, its flag is
   returned, and updates are turned back on whatever it did. The caller's
   error location goes to the routine as it is, so an error it sets
   reaches the caller only if the caller passed a place for it
   (`wantsError`).
   The routine changes the caller's timeline object in place, so the
   timeline afterwards is still the one passed in, and the one the
   formatter is bound to; only its contents come from the routine.
   */
  function LoadFromUri(f: Formatter, t: Timeline, uri: string, wantsError: bool): (r: LoadOutcome)
    ensures f.klass.loadFromUri.None? ==> r == LoadOutcome(false, f, t, None)
    ensures f.klass.loadFromUri.Some? ==>
              var run := f.klass.loadFromUri.value(Suspended(t), uri);
              && r.ok == run.ok
              && (wantsError ==> r.error == run.error)
              && (!wantsError ==> r.error.None?)
              && r.formatter == f.(timeline := Some(t.id))
              && r.timeline.layers == run.timeline.layers
              && r.timeline.updateEnabled
    ensures r.timeline.id == t.id
  {
    match f.klass.loadFromUri
    case None => LoadOutcome(false, f, t, None)
    case Some(load) =>
      var bound := f.(timeline := Some(t.id));
      var run := load(Suspended(t), uri);
      LoadOutcome(run.ok, bound, run.timeline.(id := t.id, updateEnabled := true), if wantsError then run.error else None)
  }

  /**
   Loading never leaves automatic updates off: they are on afterwards
   whenever a routine ran, and otherwise exactly as they were before.
   */
  lemma LoadRestoresUpdates(f: Formatter, t: Timeline, uri: string, wantsError: bool)
    ensures LoadFromUri(f, t, uri, wantsError).timeline.updateEnabled == (f.klass.loadFromUri.Some? || t.updateEnabled)
    ensures t.updateEnabled ==> LoadFromUri(f, t, uri, wantsError).timeline.updateEnabled
  {
  }

  /**
   When a routine exists, the outcome of a load does not depend on whether
   updates were on beforehand: the routine always sees them off.
   */
  lemma LoadIgnoresPriorUpdateState(f: Formatter, t: Timeline, enabled: bool, uri: string, wantsError: bool)
    requires f.klass.loadFromUri.Some?
    ensures LoadFromUri(f, t.(updateEnabled := enabled), uri, wantsError) == LoadFromUri(f, t, uri, wantsError)
  {
    assert Suspended(t.(updateEnabled := enabled)) == Suspended(t);
  }

  /** Loading without a routine is a no-op, and repeating it changes nothing. */
  lemma LoadWithoutRoutineIsNoOp(f: Formatter, t: Timeline, uri: string, wantsError: bool)
    requires f.klass.loadFromUri.None?
    ensures var r := LoadFromUri(f, t, uri, wantsError);
            !r.ok && LoadFromUri(r.formatter, r.timeline, uri, wantsError) == r
  {
  }

  /**
   `ges_formatter_save_to_uri`. With no save routine the answer is FALSE
   and no error is set. With one, its flag is returned and any error it
   set reaches the caller, provided the caller passed a place for it
   (`wantsError`); otherwise the error is dropped. The driver itself does
   not touch the timeline; the routine is handed the formatter and the
   timeline and could change either, which is not modelled, since here it
   receives neither the formatter nor a way to return a changed timeline.
   */
  function SaveToUri(f: Formatter, t: Timeline, uri: string, overwrite: bool, wantsError: bool): (r: SaveOutcome)
    ensures f.klass.saveToUri.None? ==> !r.ok && r.error.None?
    ensures f.klass.saveToUri.Some? ==>
              var run := f.klass.saveToUri.value(t, uri, overwrite);
              r.ok == run.ok && (wantsError ==> r.error == run.error) && (!wantsError ==> r.error.None?)
  {
    match f.klass.saveToUri
    case None => SaveOutcome(false, None)
    case Some(save) =>
      var run := save(t, uri, overwrite);
      SaveOutcome(run.ok, if wantsError then run.error else None)
  }

  /** Every error a load reports is the routine's own, unchanged, and only a caller that asked for errors gets one. */
  lemma LoadErrorComesFromRoutine(f: Formatter, t: Timeline, uri: string, wantsError: bool)
    requires LoadFromUri(f, t, uri, wantsError).error.Some?
    ensures f.klass.loadFromUri.Some? && wantsError
    ensures LoadFromUri(f, t, uri, wantsError).error == f.klass.loadFromUri.value(Suspended(t), uri).error
  {
  }

  /** Every error a save reports is the routine's own, unchanged. */
  lemma SaveErrorComesFromRoutine(f: Formatter, t: Timeline, uri: string, overwrite: bool, wantsError: bool)
    requires SaveToUri(f, t, uri, overwrite, wantsError).error.Some?
    ensures f.klass.saveToUri.Some? && wantsError
    ensures SaveToUri(f, t, uri, overwrite, wantsError).error == f.klass.saveToUri.value(t, uri, overwrite).error
  {
  }

  /** A formatter of the base class neither loads nor saves, and sets no error either way. */
  lemma BaseFormatterDoesNothing(t: Timeline, uri: string, overwrite: bool, wantsError: bool)
    ensures var f := NewFormatter(BaseClass());
            && LoadFromUri(f, t, uri, wantsError) == LoadOutcome(false, f, t, None)
            && SaveToUri(f, t, uri, overwrite, wantsError) == SaveOutcome(false, None)
  {
  }

  // ---------------------------------------------------------------------
  // Project back-reference
  // ---------------------------------------------------------------------

  /** `ges_formatter_set_project`: replaces the project reference and nothing else. */
  function SetProject(f: Formatter, project: Option<ProjectId>): (g: Formatter)
    ensures g.project == project
    ensures g.klass == f.klass && g.timeline == f.timeline
  {
    f.(project := project)
  }

  /** `ges_formatter_get_project`: the project reference. */
  function GetProject(f: Formatter): (p: Option<ProjectId>)
    ensures p.Some? <==> f.project.Some?
    ensures p.Some? ==> p.value == f.project.value
  {
    f.project
  }

  /** Disposing a formatter drops its project reference. */
  function Dispose(f: Formatter): (g: Formatter)
    ensures GetProject(g).None?
    ensures g.klass == f.klass && g.timeline == f.timeline
  {
    SetProject(f, None)
  }

  /** Reading the project back gives what was set, and a second set overrides the first. */
  lemma ProjectRoundTrip(f: Formatter, p: Option<ProjectId>, q: Option<ProjectId>)
    ensures GetProject(SetProject(f, p)) == p
    ensures SetProject(SetProject(f, p), q) == SetProject(f, q)
    ensures SetProject(f, GetProject(f)) == f
  {
  }

  /**
   After a load through a routine, the formatter is bound to exactly the
   timeline the load returns, which is the caller's timeline.
   */
  lemma LoadBindsFormatterToTimeline(f: Formatter, t: Timeline, uri: string, wantsError: bool)
    requires f.klass.loadFromUri.Some?
    ensures var r := LoadFromUri(f, t, uri, wantsError);
            r.formatter.timeline == Some(r.timeline.id) && r.timeline.id == t.id
  {
  }

  /**
   The driver itself does not touch the project reference: only the
   timeline binding changes. The routine is handed the formatter and could
   set the project; that is not modelled, since here the routine does not
   receive the formatter.
   */
  lemma LoadKeepsProject(f: Formatter, t: Timeline, uri: string, wantsError: bool)
    ensures GetProject(LoadFromUri(f, t, uri, wantsError).formatter) == GetProject(f)
  {
  }
}
