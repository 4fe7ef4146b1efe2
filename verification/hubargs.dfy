/** The argument helpers of `hubs2`: `context_and_form_tuple` and
    `context_tuple` complete the optional `hub`, `info`, `context` (and
    `form`) arguments of a view method, reject inconsistent combinations
    with `TypeError`, and build fresh hubs with `make_hubs` where needed.

    `make_hubs` is a parameter that may raise (`ToolsHub(context)` is
    `dict(context)`, see `ToolsHub.Init`); for a `None` context it always
    raises `TypeError`, as `dict(None)` does. Of an info hub only the two
    entries read here, `context` and `request_var`, are modelled. Object
    identity (`is`) is modelled as equality.
 */
module HubArgs {
  import opened Outcomes

  /** The entries `context` and `request_var` of an info hub; reading
      `request_var` reads `context.REQUEST.form`, which may raise. */
  datatype Info<C, F> = Info(context: C, requestVar: Result<F>)

  /** The 4-tuple of `context_and_form_tuple`. */
  datatype Quad<H, C, F> = Quad(hub: Option<H>, info: Option<Info<C, F>>, context: Option<C>, form: F)

  /** `make_hubs(context)`: `TypeError` for `None`, else what `makeHubs`
      gives for the context. */
  function MakeHubs<H, C, F>(context: Option<C>, makeHubs: C -> Result<(H, Info<C, F>)>): (r: Result<(H, Info<C, F>)>)
    ensures context.None? ==> r == Err(TypeError)
    ensures context.Some? ==> r == makeHubs(context.value)
  {
    if context.None? then Err(TypeError) else makeHubs(context.value)
  }

  /** Whether `context_and_form_tuple` rejects the combination of its
      arguments itself: half of a hub pair, a context next to a hub pair, or
      neither form nor context without hubs. */
  predicate FormArgsRejected<H, C, F>(hub: Option<H>, info: Option<Info<C, F>>, context: Option<C>, form: Option<F>) {
    || (hub.None? && info.Some?)
    || (hub.None? && form.None? && context.None?)
    || (hub.Some? && info.None?)
    || (hub.Some? && context.Some?)
  }

  /** `context_and_form_tuple(hub, info, context, form, amend)`, with
      `context.REQUEST.form` as `requestForm`, which may raise. */
  function ContextAndFormTuple<H, C, F>(hub: Option<H>, info: Option<Info<C, F>>, context: Option<C>, form: Option<F>,
                                        amend: bool, makeHubs: C -> Result<(H, Info<C, F>)>, requestForm: C -> Result<F>)
    : (r: Result<Quad<H, C, F>>)
    ensures FormArgsRejected(hub, info, context, form) || (hub.None? && amend && MakeHubs(context, makeHubs).Err?) ==> r.Err?
    ensures form.Some? ==>
              (r.Err? <==> FormArgsRejected(hub, info, context, form) || (hub.None? && amend && MakeHubs(context, makeHubs).Err?))
    ensures !FormArgsRejected(hub, info, context, form) && hub.Some? && form.None? ==>
              (r.Err? <==> info.value.requestVar.Err?) && (r.Err? ==> r.error == info.value.requestVar.error)
    ensures !FormArgsRejected(hub, info, context, form) && hub.None? && !amend && form.None? ==>
              (r.Err? <==> requestForm(context.value).Err?) && (r.Err? ==> r.error == requestForm(context.value).error)
    ensures !FormArgsRejected(hub, info, context, form) && hub.None? && amend && form.None? && makeHubs(context.value).Ok? ==>
              var made := makeHubs(context.value).value.1;
              (r.Err? <==> made.requestVar.Err?) && (r.Err? ==> r.error == made.requestVar.error)
    ensures FormArgsRejected(hub, info, context, form) ==> r == Err(TypeError)
    ensures !FormArgsRejected(hub, info, context, form) && hub.None? && amend && context.None? ==> r == Err(TypeError)
    ensures !FormArgsRejected(hub, info, context, form) && hub.None? && amend && context.Some? && makeHubs(context.value).Err? ==>
              r == Err(makeHubs(context.value).error)
    ensures r.Ok? && hub.None? ==>
              && r.value.context == context
              && (amend ==> context.Some? && r.value.hub.Some? && r.value.info.Some?
                             && makeHubs(context.value) == Ok((r.value.hub.value, r.value.info.value)))
              && (!amend ==> r.value.hub.None? && r.value.info.None?)
    ensures r.Ok? && hub.Some? ==>
              r.value.hub == hub && r.value.info == info && r.value.context == Some(info.value.context)
    ensures r.Ok? && form.Some? ==> r.value.form == form.value
    ensures r.Ok? && form.None? && r.value.info.Some? ==> r.value.info.value.requestVar == Ok(r.value.form)
    ensures r.Ok? && form.None? && r.value.info.None? ==> context.Some? && requestForm(context.value) == Ok(r.value.form)
  {
    var step :- if hub.None? then
                  if info.Some? then Err(TypeError)
                  else if form.None? && context.None? then Err(TypeError)
                  else if amend then
                    var (h, i) :- MakeHubs(context, makeHubs);
                    Ok((Some(h), Some(i), context))
                  else Ok((None, None, context))
                else
                  if info.None? then Err(TypeError)
                  else if context.Some? then Err(TypeError)
                  else Ok((hub, info, Some(info.value.context)));
    var (h, i, c) := step;
    if form.Some? then Ok(Quad(h, i, c, form.value))
    else if i.Some? then
      var f :- i.value.requestVar;
      Ok(Quad(h, i, c, f))
    else
      var f :- requestForm(c.value);
      Ok(Quad(h, i, c, f))
  }

  /** The caller passed as `self`: it has no `context` attribute, or one
      holding a context or `None`. */
  datatype Caller<C> = WithoutContext | WithContext(context: Option<C>)

  /** The keyword arguments of `context_tuple`: `context` (`None` when not
      given), `strict` (`True` when not given) and the names of all others. */
  datatype Kwargs<C> = Kwargs(context: Option<C>, strict: Option<bool>, others: set<string>)

  datatype Triple<H, C, F> = Triple(hub: H, info: Info<C, F>, context: C)

  function Strict<C>(kw: Kwargs<C>): bool {
    if kw.strict.Some? then kw.strict.value else true
  }

  /** `context_tuple(hub, info, self, **kwargs)`. */
  function ContextTuple<H, C(==), F>(hub: Option<H>, info: Option<Info<C, F>>, self: Option<Caller<C>>, kw: Kwargs<C>,
                                     makeHubs: C -> Result<(H, Info<C, F>)>)
    : (r: Result<Triple<H, C, F>>)
    ensures self.Some? && kw.context.Some? ==> r == Err(TypeError)
    ensures kw.others != {} ==> r == Err(TypeError)
    ensures hub.None? && info.Some? ==> r == Err(TypeError)
    ensures hub.Some? && info.None? ==> r == Err(TypeError)
    ensures hub.None? && kw.context.None? && self.None? ==> r == Err(TypeError)
    ensures hub.None? && info.None? && kw.context.None? && kw.others == {} && self == Some(WithoutContext) ==>
              r == Err(AttributeError)
    ensures hub.None? && info.None? && kw.context.None? && kw.others == {} && self == Some(WithContext(None)) ==>
              r == Err(TypeError)
    ensures hub.Some? ==> r.Err? ==> r.error == TypeError
    ensures hub.None? && info.None? && kw.others == {} && kw.context.Some? && self.None? ==>
              r == (var (h, i) :- makeHubs(kw.context.value); Ok(Triple(h, i, kw.context.value)))
    ensures hub.None? && info.None? && kw.others == {} && kw.context.None? && self.Some? && self.value.WithContext?
            && self.value.context.Some? ==>
              r == (var c := self.value.context.value; var (h, i) :- makeHubs(c); Ok(Triple(h, i, c)))
    ensures r.Ok? && hub.Some? ==>
              && r.value.hub == hub.value && r.value.info == info.value
              && r.value.context == (if kw.context.Some? then kw.context.value else info.value.context)
    ensures hub.Some? && info.Some? && kw.context.Some? && Strict(kw) ==>
              (r.Ok? <==> self.None? && kw.others == {} && kw.context.value == info.value.context)
  {
    if self.Some? && kw.context.Some? then Err(TypeError)
    else if kw.others != {} then Err(TypeError)
    else if hub.None? then
      if info.Some? then Err(TypeError)
      else if kw.context.None? && self.None? then Err(TypeError)
      else if kw.context.None? && self.value.WithoutContext? then Err(AttributeError)
      else
        var c := if kw.context.Some? then kw.context else self.value.context;
        var (h, i) :- MakeHubs(c, makeHubs);
        Ok(Triple(h, i, c.value))
    else if info.None? then Err(TypeError)
    else if kw.context.Some? then
      if Strict(kw) && kw.context.value != info.value.context then Err(TypeError)
      else Ok(Triple(hub.value, info.value, kw.context.value))
    else Ok(Triple(hub.value, info.value, info.value.context))
  }

  /** Both helpers take hubs only as a pair: a hub without info and info
      without a hub are rejected with `TypeError`. */
  lemma HalfPairsRejected<H, C, F>(h: H, i: Info<C, F>, self: Option<Caller<C>>, kw: Kwargs<C>,
                                      context: Option<C>, form: Option<F>, amend: bool,
                                      makeHubs: C -> Result<(H, Info<C, F>)>, requestForm: C -> Result<F>)
    ensures ContextAndFormTuple(Some(h), None, context, form, amend, makeHubs, requestForm) == Err(TypeError)
    ensures ContextAndFormTuple(None, Some(i), context, form, amend, makeHubs, requestForm) == Err(TypeError)
    ensures ContextTuple(Some(h), None, self, kw, makeHubs) == Err(TypeError)
    ensures ContextTuple(None, Some(i), self, kw, makeHubs) == Err(TypeError)
  {
  }

  /** Building hubs needs a context: with `amend` and only a form,
      `make_hubs(None)` raises `TypeError`, and so does a caller whose
      `context` attribute is `None`. */
  lemma HubsNeedAContext<H, C, F>(f: F, kw: Kwargs<C>, makeHubs: C -> Result<(H, Info<C, F>)>, requestForm: C -> Result<F>)
    requires kw.context.None? && kw.others == {}
    ensures ContextAndFormTuple(None, None, None, Some(f), true, makeHubs, requestForm) == Err(TypeError)
    ensures ContextAndFormTuple(None, None, None, Some(f), false, makeHubs, requestForm) == Ok(Quad(None, None, None, f))
    ensures ContextTuple(None, None, Some(WithContext(None)), kw, makeHubs) == Err(TypeError)
  {
  }

  /** A missing form is read from the context's request: a context without
      `REQUEST` makes the helper raise that `AttributeError`, and so does an
      info hub whose `request_var` cannot be read. */
  lemma UnreadableFormRaises<H, C, F>(h: H, i: Info<C, F>, c: C, makeHubs: C -> Result<(H, Info<C, F>)>,
                                          requestForm: C -> Result<F>)
    requires requestForm(c) == Err(AttributeError)
    requires i.requestVar == Err(AttributeError)
    ensures ContextAndFormTuple(None, None, Some(c), None, false, makeHubs, requestForm) == Err(AttributeError)
    ensures ContextAndFormTuple(Some(h), Some(i), None, None, false, makeHubs, requestForm) == Err(AttributeError)
  {
  }

  /** With a hub pair and no context, both helpers answer the info's
      context, and the form is the info's request variables. */
  lemma PairDecidesContext<H, C, F>(h: H, i: Info<C, F>, kw: Kwargs<C>,
                                        makeHubs: C -> Result<(H, Info<C, F>)>, requestForm: C -> Result<F>, amend: bool)
    requires kw.context.None? && kw.others == {}
    ensures ContextTuple(Some(h), Some(i), None, kw, makeHubs) == Ok(Triple(h, i, i.context))
    ensures ContextAndFormTuple(Some(h), Some(i), None, None, amend, makeHubs, requestForm)
            == (if i.requestVar.Ok? then Ok(Quad(Some(h), Some(i), Some(i.context), i.requestVar.value))
                else Err(i.requestVar.error))
  {
  }

  /** With `strict` the context returned next to a hub pair is always the
      info's own; without it a given context is returned as it is. */
  lemma StrictnessOfContext<H, C, F>(h: H, i: Info<C, F>, c: C, self: Option<Caller<C>>,
                                         makeHubs: C -> Result<(H, Info<C, F>)>)
    ensures forall kw: Kwargs<C> :: Strict(kw) && ContextTuple(Some(h), Some(i), self, kw, makeHubs).Ok? ==>
              ContextTuple(Some(h), Some(i), self, kw, makeHubs).value.context == i.context
    ensures ContextTuple(Some(h), Some(i), None, Kwargs(Some(c), Some(false), {}), makeHubs) == Ok(Triple(h, i, c))
  {
  }

  /** `self` is consulted only when neither hubs nor a context are given. */
  lemma SelfOnlyAsLastResort<H, C, F>(hub: Option<H>, info: Option<Info<C, F>>, s1: Caller<C>, s2: Caller<C>,
                                          kw: Kwargs<C>, makeHubs: C -> Result<(H, Info<C, F>)>)
    requires hub.Some? && kw.context.None?
    ensures ContextTuple(hub, info, Some(s1), kw, makeHubs) == ContextTuple(hub, info, Some(s2), kw, makeHubs)
  {
  }
}
