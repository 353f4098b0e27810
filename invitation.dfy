/**
  The invitation page (app/components/auth/InvitationPage.tsx): the token
  read from a pasted invitation link, the checks before the organization's
  details are requested, the handling of that request, and the reset. The
  token is cut at the query and fragment delimiters of section 3 of RFC 3986,
  but the link is not parsed as a URI.
*/
module Invitation {
  import opened Wrappers
  import Text
  import BoardTypes
  import StringUtils

  /** The path segment that introduces the token in an invitation link. */
  const Marker := "/invitations/accept/"
  const Slash := "/"

  const EmptyLinkError := "Please enter an invitation link"
  const FormatError := "Invalid invitation link format. Please check the link and try again."
  const DetailsFailed := "Invalid invitation link. Please check the link and try again."
  const DetailsThrew := "Failed to load invitation details. Please check the link and try again."

  /** `parts[parts.length - 1]` of `t.split(sep)`: the text after the last separator the split takes. */
  function LastPart(t: string, sep: string): (r: string)
    requires |sep| > 0
    ensures !Text.Contains(r, sep) && Text.EndsWith(t, r)
    ensures Text.Contains(t, sep) ==> Text.EndsWith(t, sep + r)
    ensures !Text.Contains(t, sep) ==> r == t
  {
    var parts := Text.Split(t, sep);
    LastPartFacts(t, sep);
    parts[|parts| - 1]
  }

  lemma LastPartFacts(t: string, sep: string)
    requires |sep| > 0
    ensures var parts := Text.Split(t, sep); var r := parts[|parts| - 1];
      && !Text.Contains(r, sep) && Text.EndsWith(t, r)
      && (Text.Contains(t, sep) ==> Text.EndsWith(t, sep + r))
      && (!Text.Contains(t, sep) ==> r == t)
  {
    var parts := Text.Split(t, sep);
    var r := parts[|parts| - 1];
    Text.SplitPartsAvoidSeparator(t, sep);
    if Text.Contains(t, sep) {
      Text.SplitWithMatch(t, sep);
      var front := Text.Join(parts[..|parts| - 1], sep);
      assert t == front + (sep + r);
      assert t[|t| - |sep + r|..] == sep + r;
      assert t[|t| - |r|..] == r;
    } else {
      Text.SplitWithoutMatch(t, sep);
    }
  }

  /** `t.split(c)[0]`: the text before the first `c`, or all of it. */
  function BeforeFirst(t: string, c: char): (r: string)
    ensures c !in r && Text.StartsWith(t, r)
    ensures |r| < |t| ==> Text.StartsWith(t, r + [c])
    ensures c !in t ==> r == t
  {
    BeforeFirstFacts(t, c);
    Text.Split(t, [c])[0]
  }

  lemma BeforeFirstFacts(t: string, c: char)
    ensures var r := Text.Split(t, [c])[0];
      && c !in r && Text.StartsWith(t, r)
      && (|r| < |t| ==> Text.StartsWith(t, r + [c]))
      && (c !in t ==> r == t)
  {
    var parts := Text.Split(t, [c]);
    Text.SplitFirstIsPrefix(t, [c]);
    Text.SplitPartsAvoidSeparator(t, [c]);
    Text.ContainsChar(parts[0], c);
    if |parts| >= 2 {
      Text.SplitFirstSeparator(t, [c]);
      assert t == (parts[0] + [c]) + Text.Join(parts[1..], [c]);
    } else {
      Text.JoinSplit(t, [c]);
    }
    Text.ContainsChar(t, c);
    if c !in t { Text.SplitWithoutMatch(t, [c]); }
  }

  /** The text the token is cut from, in the trimmed link: after the last accept marker, else after the last '/', else all of it. */
  function Candidate(t: string): (r: string)
    ensures Text.EndsWith(t, r)
  {
    if Text.Contains(t, Marker) then LastPart(t, Marker)
    else if Text.Contains(t, Slash) then LastPart(t, Slash)
    else t
  }

  /** The candidate cut at the first '?' and then at the first '#', when not empty. */
  function TokenOf(t: string): Option<string> {
    var token := BeforeFirst(BeforeFirst(Candidate(t), '?'), '#');
    if |token| > 0 then Some(token) else None
  }

  /**
    extractTokenFromUrl's result: the token of the trimmed link. This is the
    specification the lemmas below speak about; ExtractTokenFromUrl is the
    step-by-step procedure that meets it, and the page calls that.
  */
  function TokenFromUrl(url: string): Option<string> {
    TokenOf(Text.Trim(url))
  }

  /** extractTokenFromUrl, as its sequence of reassignments of `token`. */
  method ExtractTokenFromUrl(url: string) returns (result: Option<string>)
    ensures result == TokenFromUrl(url)
    ensures result.Some? ==> result.value != "" && '?' !in result.value && '#' !in result.value
  {
    var token := Text.Trim(url);
    ghost var t := token;
    if Text.Contains(token, Marker) {
      token := LastPart(token, Marker);
    } else if Text.Contains(token, Slash) {
      token := LastPart(token, Slash);
    }
    assert token == Candidate(t);
    token := BeforeFirst(token, '?');
    token := BeforeFirst(token, '#');
    TokenAvoidsDelimiters(t);
    result := if |token| > 0 then Some(token) else None;
  }

  /** The token is never empty and holds neither '?' nor '#'; it is a prefix of the candidate. */
  lemma TokenAvoidsDelimiters(t: string)
    ensures var token := TokenOf(t);
      token.Some? ==>
        && token.value != "" && '?' !in token.value && '#' !in token.value
        && Text.StartsWith(Candidate(t), token.value)
  {
    var c := Candidate(t);
    var q := BeforeFirst(c, '?');
    var h := BeforeFirst(q, '#');
    assert forall k :: 0 <= k < |h| ==> h[k] == q[k];
    assert c[..|h|] == h;
  }

  /**
    With the accept marker in the trimmed link, the candidate is what
    follows a match of the marker and holds no further match: the token may
    keep '/' characters.
  */
  lemma MarkerBranch(t: string)
    requires Text.Contains(t, Marker)
    ensures !Text.Contains(Candidate(t), Marker) && Text.EndsWith(t, Marker + Candidate(t))
  {
    assert Candidate(t) == LastPart(t, Marker);
  }

  /** Otherwise, with a '/' in the trimmed link, the candidate is the text after its last '/', and the token has no '/'. */
  lemma SlashBranch(t: string)
    requires !Text.Contains(t, Marker) && '/' in t
    ensures '/' !in Candidate(t) && Text.EndsWith(t, Slash + Candidate(t))
    ensures TokenOf(t).Some? ==> '/' !in TokenOf(t).value
  {
    Text.ContainsChar(t, '/');
    var c := LastPart(t, Slash);
    assert Candidate(t) == c;
    Text.ContainsChar(c, '/');
    TokenAvoidsDelimiters(t);
    var v := TokenOf(t);
    if v.Some? {
      assert forall k :: 0 <= k < |v.value| ==> v.value[k] == c[k];
    }
  }

  /** A link with the marker contains a '/'. */
  lemma MarkerHasSlash(t: string)
    requires Text.Contains(t, Marker)
    ensures '/' in t
  {
    Text.ContainsStartOf(t, Marker, Slash);
    Text.ContainsChar(t, '/');
  }

  /** A trimmed link that ends in '/' without the marker gives no token. */
  lemma TrailingSlashGivesNone(t: string)
    requires !Text.Contains(t, Marker) && |t| > 0 && t[|t| - 1] == '/'
    ensures TokenOf(t).None?
  {
    assert '/' in t;
    SlashBranch(t);
    Text.EndsWithLast(t, Candidate(t));
  }

  /** A bare token — no '/', '?' or '#' — is returned trimmed and otherwise unchanged. */
  lemma BareTokenKept(url: string)
    requires var t := Text.Trim(url); t != "" && '/' !in t && '?' !in t && '#' !in t
    ensures TokenFromUrl(url) == Some(Text.Trim(url))
  {
    var t := Text.Trim(url);
    if Text.Contains(t, Marker) { MarkerHasSlash(t); }
    Text.ContainsChar(t, '/');
    assert Candidate(t) == t;
  }

  /** After the bare marker, the token keeps its '/' characters. */
  lemma MarkerPathToken(c: string)
    requires c != "" && !Text.IsWhite(c[|c| - 1]) && !Text.Contains(c, Marker) && '?' !in c && '#' !in c
    ensures TokenFromUrl(Marker + c) == Some(c)
  {
    var t := Marker + c;
    assert t[0] == '/' && t[|t| - 1] == c[|c| - 1];
    Text.TrimOfTrimmed(t);
    assert t[..|Marker|] == Marker && t[|Marker|..] == c;
    assert Text.Contains(t, Marker) by { assert Text.StartsWith(t, Marker); }
    Text.SplitWithoutMatch(c, Marker);
    assert Text.Split(t, Marker) == [""] + [c];
    assert Candidate(t) == c;
  }

  lemma MarkerPathExample()
    ensures TokenFromUrl(Marker + "a/b") == Some("a/b")
  {
    if Text.Contains("a/b", Marker) { Text.ContainsLength("a/b", Marker); }
    MarkerPathToken("a/b");
  }

  /** handleSubmitUrl's checks: the message for a blank link, then the one for a link without a token. */
  function LinkError(url: string): (r: Option<string>)
    ensures Text.Trim(url) == "" ==> r == Some(EmptyLinkError)
    ensures Text.Trim(url) != "" && TokenFromUrl(url).None? ==> r == Some(FormatError)
  {
    if Text.Trim(url) == "" then Some(EmptyLinkError)
    else if TokenFromUrl(url).None? then Some(FormatError)
    else None
  }

  /** A request is made exactly when a token can be read: a blank link has none. */
  lemma RequestIffToken(url: string)
    ensures LinkError(url).None? <==> TokenFromUrl(url).Some?
  {
    if Text.Trim(url) == "" {
      if Text.Contains("", Marker) { Text.ContainsLength("", Marker); }
      if Text.Contains("", Slash) { Text.ContainsLength("", Slash); }
      assert Candidate("") == "";
    }
  }

  /** The organization's details, as far as this page reads them. */
  datatype OrganizationDetails = OrganizationDetails(name: string)

  /** The response data: the details under an `organization` key, or the details themselves. */
  datatype DetailsData = Nested(organization: OrganizationDetails) | Flat(details: OrganizationDetails)

  /** What listOrganizationDetails came back with, or that it threw. */
  datatype DetailsResponse = Listed(success: bool, data: Option<DetailsData>, error: string) | Threw

  /** `response.data?.organization || response.data`. */
  function OrgData(d: DetailsData): OrganizationDetails {
    match d
    case Nested(org) => org
    case Flat(org) => org
  }

  class Page {
    var invitationUrl: string
    var isLoadingOrg: bool
    var error: Option<string>
    var success: bool
    var organization: Option<OrganizationDetails>
    var organizationInitials: string
    var showInvitationDetails: bool
    var extractedToken: Option<string>

    constructor()
      ensures invitationUrl == "" && !isLoadingOrg && error.None? && !success && organization.None?
      ensures organizationInitials == "BY" && !showInvitationDetails && extractedToken.None?
    {
      invitationUrl := "";
      isLoadingOrg := false;
      error := None;
      success := false;
      organization := None;
      organizationInitials := "BY";
      showInvitationDetails := false;
      extractedToken := None;
    }

    /** The link field's change handler: sets the text and clears a message that is shown (a non-empty one). */
    method SetInvitationUrl(url: string)
      modifies this
      ensures invitationUrl == url && extractedToken == old(extractedToken)
      ensures error == if old(error).Some? && old(error).value != "" then None else old(error)
      ensures organization == old(organization) && showInvitationDetails == old(showInvitationDetails)
      ensures success == old(success) && isLoadingOrg == old(isLoadingOrg) && organizationInitials == old(organizationInitials)
    {
      invitationUrl := url;
      if error.Some? && error.value != "" {
        error := None;
      }
    }

    /**
      What the details request leaves: on success with data, the details,
      their initials and the details view; on success without data (reading
      `name` of undefined throws) and on a throw, the load-failure message;
      on failure, the response's error or the fallback. Loading ends.
    */
    ghost predicate Responded(response: DetailsResponse, token: string,
                              oldOrganization: Option<OrganizationDetails>, oldInitials: string, oldShow: bool)
      reads this
    {
      && extractedToken == Some(token) && !isLoadingOrg
      && (if response.Listed? && response.success && response.data.Some? then
            var org := OrgData(response.data.value);
            && error.None? && organization == Some(org)
            && organizationInitials == StringUtils.FormatIconText(org.name) && showInvitationDetails
          else
            && organization == oldOrganization && organizationInitials == oldInitials && showInvitationDetails == oldShow
            && error == Some(if response.Listed? && !response.success then BoardTypes.OrElse(response.error, DetailsFailed)
                             else DetailsThrew))
    }

    /**
      handleSubmitUrl: a blank link and a link without a token stop with
      their messages and make no request; otherwise the token is kept and
      requested, and the response is handled as Responded states.
    */
    method HandleSubmitUrl(response: DetailsResponse) returns (request: Option<string>)
      modifies this
      ensures invitationUrl == old(invitationUrl) && success == old(success)
      ensures LinkError(old(invitationUrl)).Some? ==>
        && request.None? && error == LinkError(old(invitationUrl)) && extractedToken == old(extractedToken)
        && organization == old(organization) && isLoadingOrg == old(isLoadingOrg)
      ensures LinkError(old(invitationUrl)).None? ==>
        && request == TokenFromUrl(old(invitationUrl)) && request.Some?
        && Responded(response, request.value, old(organization), old(organizationInitials), old(showInvitationDetails))
    {
      var token, message := CheckLink(invitationUrl);
      request := token;
      Proceed(token, message, response);
    }

    /** After the checks: the message, or the request for the token and the handling of its response. */
    method Proceed(token: Option<string>, message: Option<string>, response: DetailsResponse)
      modifies this
      ensures invitationUrl == old(invitationUrl) && success == old(success)
      ensures token.None? ==>
        && error == message && extractedToken == old(extractedToken)
        && organization == old(organization) && isLoadingOrg == old(isLoadingOrg)
      ensures token.Some? ==>
        Responded(response, token.value, old(organization), old(organizationInitials), old(showInvitationDetails))
    {
      ghost var organization0, initials0, show0 := organization, organizationInitials, showInvitationDetails;
      if token.None? {
        error := message;
      } else {
        extractedToken := token;
        error := None;
        isLoadingOrg := true;
        Respond(response, token.value, organization0, initials0, show0);
      }
    }

    /** The checks before the request: the message that stops it, or the token to request. */
    static method CheckLink(url: string) returns (token: Option<string>, message: Option<string>)
      ensures LinkError(url).Some? ==> message == LinkError(url) && token.None?
      ensures LinkError(url).None? ==> message.None? && token == TokenFromUrl(url) && token.Some?
    {
      token, message := None, None;
      RequestIffToken(url);
      if Text.Trim(url) == "" {
        message := Some(EmptyLinkError);
        return;
      }
      var extracted := ExtractTokenFromUrl(url);
      if extracted.None? {
        message := Some(FormatError);
        return;
      }
      token := extracted;
    }

    method Respond(response: DetailsResponse, token: string,
                   ghost organization0: Option<OrganizationDetails>, ghost initials0: string, ghost show0: bool)
      requires extractedToken == Some(token) && error.None?
      requires organization == organization0 && organizationInitials == initials0 && showInvitationDetails == show0
      modifies this
      ensures invitationUrl == old(invitationUrl) && success == old(success)
      ensures Responded(response, token, organization0, initials0, show0)
    {
      match response {
        case Listed(ok, data, e) =>
          if ok {
            if data.Some? {
              var orgData := OrgData(data.value);
              organizationInitials := StringUtils.FormatIconText(orgData.name);
              organization := Some(orgData);
              showInvitationDetails := true;
            } else {
              error := Some(DetailsThrew);
            }
          } else {
            error := Some(BoardTypes.OrElse(e, DetailsFailed));
          }
        case Threw =>
          error := Some(DetailsThrew);
      }
      isLoadingOrg := false;
    }

    /** handleReset: clears the link, error, success flag, details, details view and token; the initials stay. */
    method HandleReset()
      modifies this
      ensures invitationUrl == "" && error.None? && !success && organization.None?
      ensures !showInvitationDetails && extractedToken.None?
      ensures organizationInitials == old(organizationInitials) && isLoadingOrg == old(isLoadingOrg)
    {
      invitationUrl := "";
      error := None;
      success := false;
      organization := None;
      showInvitationDetails := false;
      extractedToken := None;
    }
  }
}
