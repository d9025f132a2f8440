/** The create/edit link form (src/pages/links/LinkForm.tsx): its field
    rules, the edit-mode switch, and the submit handler that dispatches to
    create or update. */
module LinkForm {
  import opened Types

  const TitleRequired: string := "Please enter a title"
  const TitleLength: string := "Title must be between 1 and 255 characters"
  const UrlRequired: string := "Please enter a URL"
  const UrlInvalid: string := "Please enter a valid URL"
  const UrlTooLong: string := "URL must not exceed 2048 characters"
  const DescriptionTooLong: string := "Description must not exceed 5000 characters"
  const CategoryRequired: string := "Please select a category"
  const CategoryLength: string := "Category must be between 1 and 100 characters"
  const LinkUpdated: string := "Link updated successfully"
  const LinkCreated: string := "Link created successfully"
  const LinksPath: string := "/links"

  /* Each field's rules yield the messages of the rules that fail. As in the
     form library, a rule that is not the `required` rule is skipped when the
     value is empty, so an empty value reports only "required". */

  /** Title: required, 1 to 255 characters. */
  function TitleErrors(title: string): (errors: seq<string>)
    ensures errors == [] <==> 1 <= |title| <= 255
    ensures title == "" ==> errors == [TitleRequired]
  {
    if title == "" then [TitleRequired]
    else if |title| > 255 then [TitleLength]
    else []
  }

  /** URL: required, well-formed by the library's url check (`isUrl`), at
      most 2048 characters. */
  function UrlErrors(url: string, isUrl: string -> bool): (errors: seq<string>)
    ensures errors == [] <==> url != "" && isUrl(url) && |url| <= 2048
    ensures url == "" ==> errors == [UrlRequired]
  {
    if url == "" then [UrlRequired]
    else (if isUrl(url) then [] else [UrlInvalid]) + (if |url| > 2048 then [UrlTooLong] else [])
  }

  /** Description: optional, at most 5000 characters. */
  function DescriptionErrors(description: string): (errors: seq<string>)
    ensures errors == [] <==> |description| <= 5000
  {
    if |description| > 5000 then [DescriptionTooLong] else []
  }

  /** Category: required, 1 to 100 characters. */
  function CategoryErrors(category: string): (errors: seq<string>)
    ensures errors == [] <==> 1 <= |category| <= 100
    ensures category == "" ==> errors == [CategoryRequired]
  {
    if category == "" then [CategoryRequired]
    else if |category| > 100 then [CategoryLength]
    else []
  }

  /** A request the form lets through. */
  predicate ValidRequest(values: LinkRequest, isUrl: string -> bool)
  {
    && 1 <= |values.title| <= 255
    && values.url != "" && isUrl(values.url) && |values.url| <= 2048
    && |values.description| <= 5000
    && 1 <= |values.category| <= 100
  }

  /** Every message of every field, in form order. */
  function FormErrors(values: LinkRequest, isUrl: string -> bool): (errors: seq<string>)
    ensures errors == [] <==> ValidRequest(values, isUrl)
  {
    TitleErrors(values.title) + UrlErrors(values.url, isUrl)
      + DescriptionErrors(values.description) + CategoryErrors(values.category)
  }

  /** `isEditMode`: the route carries an id, and `!!id` rejects "". */
  predicate IsEditMode(id: Option<string>): (edit: bool)
    ensures edit ==> id.Some?
    ensures id.Some? ==> (edit <==> |id.value| > 0)
  {
    id.Some? && id.value != ""
  }

  /** The link-service call a submission makes. */
  datatype LinkCall = CreateLink(values: LinkRequest) | UpdateLink(id: string, values: LinkRequest)

  /** The call `handleSubmit` makes: update in edit mode, create otherwise,
      with the submitted values as they are. */
  function SubmitCall(id: Option<string>, values: LinkRequest): (call: LinkCall)
    ensures call.values == values
    ensures call.UpdateLink? <==> IsEditMode(id)
    ensures call.UpdateLink? ==> call.id == id.value
  {
    if IsEditMode(id) then UpdateLink(id.value, values) else CreateLink(values)
  }

  class LinkFormPage {
    const id: Option<string>
    var submitting: bool
    /** The last `navigate` target, if any. */
    var route: Option<string>
    var toast: Option<Toast>
    /** The link-service calls issued so far. */
    var calls: seq<LinkCall>

    constructor (id: Option<string>)
      ensures this.id == id
      ensures !submitting && route == None && toast == None && calls == []
    {
      this.id := id;
      submitting := false;
      route := None;
      toast := None;
      calls := [];
    }

    /** `handleSubmit`: exactly one create or update call; on success a
        success toast and navigation to the list; on failure an error toast
        with the server's message and no navigation. `submitting` is false
        afterwards either way. */
    method HandleSubmit(values: LinkRequest, response: Result<Link, HttpError>)
      modifies this
      ensures calls == old(calls) + [SubmitCall(id, values)]
      ensures !submitting
      ensures route == (if response.Ok? then Some(LinksPath) else old(route))
      ensures toast == Some(if response.Err? then ErrorToast(ServerMessage(response.error))
                            else if IsEditMode(id) then SuccessToast(LinkUpdated)
                            else SuccessToast(LinkCreated))
    {
      submitting := true;
      if IsEditMode(id) {
        calls := calls + [UpdateLink(id.value, values)];
        if response.Ok? {
          toast := Some(SuccessToast(LinkUpdated));
          route := Some(LinksPath);
        } else {
          toast := Some(ErrorToast(ServerMessage(response.error)));
        }
      } else {
        calls := calls + [CreateLink(values)];
        if response.Ok? {
          toast := Some(SuccessToast(LinkCreated));
          route := Some(LinksPath);
        } else {
          toast := Some(ErrorToast(ServerMessage(response.error)));
        }
      }
      submitting := false;
    }

    /** Pressing "save": the form runs its rules and calls `handleSubmit`
        only when none fails, so an invalid form issues no call at all. */
    method Submit(values: LinkRequest, isUrl: string -> bool, response: Result<Link, HttpError>)
      modifies this
      ensures !ValidRequest(values, isUrl) ==>
                calls == old(calls) && submitting == old(submitting) &&
                route == old(route) && toast == old(toast)
      ensures ValidRequest(values, isUrl) ==>
                && calls == old(calls) + [SubmitCall(id, values)]
                && !submitting
                && route == (if response.Ok? then Some(LinksPath) else old(route))
                && toast == Some(if response.Err? then ErrorToast(ServerMessage(response.error))
                                 else if IsEditMode(id) then SuccessToast(LinkUpdated)
                                 else SuccessToast(LinkCreated))
    {
      if FormErrors(values, isUrl) == [] {
        HandleSubmit(values, response);
      }
    }
  }
}
