/**
 * The stream-decision helpers of backend/src/api/api_utils.rs: splitting a
 * requested resource into number and extension, the grace-period decision,
 * stream options, throttle and share eligibility, redirect query paths,
 * seek detection and credential substitution in alternative URLs.
 *
 * The HTTP handlers around them are not modelled; the values they read from
 * requests and configuration (a header, a URL's extension, a provider's user
 * info) are parameters.
 */
module ApiUtils {
  import opened Wrappers
  import Text
  import ActiveUsers

  /** The playlist item types this file distinguishes. */
  datatype PlaylistItemType = Live | LiveHls | LiveDash | Video | Series | SeriesInfo | Catchup

  datatype XtreamCluster = LiveCluster | VideoCluster | SeriesCluster

  /** How a provider stream was obtained; a custom response's payload is not modelled. */
  datatype ProviderStreamState =
    | Custom
    | Available(providerName: Option<string>, streamUrl: string)
    | GracePeriod(providerName: Option<string>, streamUrl: string)

  // ---------------------------------------------------------------------
  // separate_number_and_remainder
  // ---------------------------------------------------------------------

  /**
   * `separate_number_and_remainder`: splits at the last '.'; the remainder
   * keeps its dot and is dropped when it is nothing but the dot.
   */
  function SeparateNumberAndRemainder(input: string): (r: (string, Option<string>))
    ensures '.' !in input ==> r == (input, None)
    ensures '.' in input ==>
      && |r.0| < |input| && r.0 == input[..|r.0|] && input[|r.0|] == '.' && '.' !in input[|r.0| + 1..]
      && (r.1.None? <==> |r.0| == |input| - 1)
      && (r.1.None? ==> r.0 + "." == input)
    ensures r.1.Some? ==> r.0 + r.1.value == input && |r.1.value| >= 2 && r.1.value[0] == '.'
  {
    match Text.RFind(input, '.')
    case None => (input, None)
    case Some(dot) =>
      var rest := input[dot..];
      assert input == input[..dot] + rest;
      (input[..dot], if |rest| < 2 then None else Some(rest))
  }

  /** Splitting a number joined to a dot-free extension gives back the two parts. */
  lemma SeparateOfJoined(number: string, ext: string)
    requires '.' !in ext
    ensures SeparateNumberAndRemainder(number + "." + ext)
      == (number, if ext == [] then None else Some("." + ext))
  {
    var input := number + "." + ext;
    assert input[|number|] == '.';
    assert input[|number| + 1..] == ext;
    assert input[..|number|] == number;
    assert input[|number|..] == "." + ext;
  }

  // ---------------------------------------------------------------------
  // Grace period and stream options
  // ---------------------------------------------------------------------

  /**
   * `get_grace_period_millis`: the configured grace period applies when it
   * is positive and either the provider or the user is in its grace period;
   * otherwise there is none.
   */
  function GetGracePeriodMillis(permission: ActiveUsers.UserConnectionPermission, state: ProviderStreamState,
                                configGracePeriodMillis: nat): (r: nat)
    ensures r == configGracePeriodMillis || r == 0
    ensures r > 0 <==> configGracePeriodMillis > 0 && (state.GracePeriod? || permission == ActiveUsers.GracePeriod)
  {
    if configGracePeriodMillis > 0 && (state.GracePeriod? || permission == ActiveUsers.GracePeriod)
    then configGracePeriodMillis else 0
  }

  datatype StreamBufferConfig = StreamBufferConfig(enabled: bool, size: nat)

  datatype StreamConfig = StreamConfig(retry: bool, forcedRetryIntervalSecs: nat, buffer: Option<StreamBufferConfig>)

  datatype ReverseProxyConfig = ReverseProxyConfig(stream: Option<StreamConfig>)

  datatype StreamOptions = StreamOptions(
    streamRetry: bool,
    streamForceRetrySecs: nat,
    bufferEnabled: bool,
    bufferSize: nat,
    pipeProviderStream: bool)

  /**
   * `get_stream_options`: the reverse proxy's stream settings, defaulting to
   * no retry and no buffer; the provider stream is piped straight through
   * exactly when neither retry nor buffering is on.
   */
  function GetStreamOptions(reverseProxy: Option<ReverseProxyConfig>): (r: StreamOptions)
    ensures r.pipeProviderStream <==> !r.streamRetry && !r.bufferEnabled
    ensures (reverseProxy.None? || reverseProxy.value.stream.None?) ==> r == StreamOptions(false, 0, false, 0, true)
    ensures reverseProxy.Some? && reverseProxy.value.stream.Some? ==>
      var stream := reverseProxy.value.stream.value;
      && r.streamRetry == stream.retry && r.streamForceRetrySecs == stream.forcedRetryIntervalSecs
      && (stream.buffer.None? ==> !r.bufferEnabled && r.bufferSize == 0)
      && (stream.buffer.Some? ==> r.bufferEnabled == stream.buffer.value.enabled && r.bufferSize == stream.buffer.value.size)
  {
    var (streamRetry, forceRetrySecs, bufferEnabled, bufferSize) :=
      match reverseProxy
      case Some(ReverseProxyConfig(Some(stream))) =>
        var (enabled, size) := match stream.buffer
          case None => (false, 0)
          case Some(buffer) => (buffer.enabled, buffer.size);
        (stream.retry, stream.forcedRetryIntervalSecs, enabled, size)
      case _ => (false, 0, false, 0);
    StreamOptions(streamRetry, forceRetrySecs, bufferEnabled, bufferSize, !streamRetry && !bufferEnabled)
  }

  // ---------------------------------------------------------------------
  // Throttling and sharing
  // ---------------------------------------------------------------------

  /** `is_throttled_stream`: a positive rate limit on video-on-demand, series and catch-up streams. */
  predicate IsThrottledStream(itemType: PlaylistItemType, throttleKbps: nat) {
    throttleKbps > 0 && itemType in {Video, Series, SeriesInfo, Catchup}
  }

  datatype TargetOptions = TargetOptions(shareLiveStreams: bool)

  /** `is_stream_share_enabled`: live items on targets that share live streams. */
  predicate IsStreamShareEnabled(itemType: PlaylistItemType, targetOptions: Option<TargetOptions>) {
    itemType == Live && targetOptions.Some? && targetOptions.value.shareLiveStreams
  }

  /**
   * Only a positive limit throttles, and only on-demand kinds: live items of
   * every kind are never throttled, whatever the limit.
   */
  lemma ThrottledKinds(itemType: PlaylistItemType, throttleKbps: nat)
    ensures throttleKbps == 0 ==> !IsThrottledStream(itemType, throttleKbps)
    ensures itemType in {Live, LiveHls, LiveDash} ==> !IsThrottledStream(itemType, throttleKbps)
  {
  }

  /**
   * Sharing is for plain live items only (not HLS or DASH live items), so a
   * shared stream is never throttled and a throttled stream is never shared.
   */
  lemma ShareOnlyPlainLive(itemType: PlaylistItemType, throttleKbps: nat, targetOptions: Option<TargetOptions>)
    ensures IsStreamShareEnabled(itemType, targetOptions) ==> itemType == Live
    ensures !(IsThrottledStream(itemType, throttleKbps) && IsStreamShareEnabled(itemType, targetOptions))
  {
  }

  // ---------------------------------------------------------------------
  // Redirect query path
  // ---------------------------------------------------------------------

  /**
   * `RedirectParams::get_query_path`: the provider id followed by the
   * extension (the requested one, else the URL's, else none), under the
   * action path when there is one. The URL's extension is a parameter.
   */
  function GetQueryPath(streamExt: Option<string>, urlExtension: Option<string>, actionPath: string,
                        providerId: nat): (r: string)
    ensures var extension := if streamExt.Some? then streamExt.value else urlExtension.GetOr([]);
      var prefix := if actionPath == [] then [] else actionPath + "/";
      && Text.StartsWith(r, prefix)
      && r[|prefix|..] == Text.NatToString(providerId) + extension
  {
    var extension := match streamExt
      case Some(ext) => ext
      case None => urlExtension.GetOr([]);
    var path := Text.NatToString(providerId) + extension;
    if actionPath == [] then path else actionPath + "/" + path
  }

  /** The longest run of decimal digits at the start of a string. */
  function LeadingDigits(s: string): (r: string)
    ensures |r| <= |s| && r == s[..|r|]
    ensures forall k | 0 <= k < |r| :: Text.IsDigit(r[k])
  {
    if s != [] && Text.IsDigit(s[0]) then [s[0]] + LeadingDigits(s[1..]) else []
  }

  lemma {:induction false} LeadingDigitsOfNumber(digits: string, rest: string)
    requires forall k | 0 <= k < |digits| :: Text.IsDigit(digits[k])
    requires rest == [] || !Text.IsDigit(rest[0])
    ensures LeadingDigits(digits + rest) == digits
  {
    if digits == [] {
      assert digits + rest == rest;
    } else {
      assert (digits + rest)[1..] == digits[1..] + rest;
      LeadingDigitsOfNumber(digits[1..], rest);
    }
  }

  /**
   * The provider id can be read back from a query path whose extension does
   * not start with a digit: it is the run of digits after the action path.
   */
  lemma QueryPathProviderId(streamExt: Option<string>, urlExtension: Option<string>, actionPath: string, providerId: nat)
    requires var extension := if streamExt.Some? then streamExt.value else urlExtension.GetOr([]);
      extension == [] || !Text.IsDigit(extension[0])
    ensures var prefix := if actionPath == [] then [] else actionPath + "/";
      var r := GetQueryPath(streamExt, urlExtension, actionPath, providerId);
      Text.DecimalValue(LeadingDigits(r[|prefix|..])) == providerId
  {
    var extension := if streamExt.Some? then streamExt.value else urlExtension.GetOr([]);
    LeadingDigitsOfNumber(Text.NatToString(providerId), extension);
  }

  // ---------------------------------------------------------------------
  // Seek requests
  // ---------------------------------------------------------------------

  /**
   * `is_seek_request`: never for the live cluster; otherwise a `range`
   * header (a parameter: absent, or its text) asking for bytes from a
   * non-zero offset.
   */
  function IsSeekRequest(cluster: XtreamCluster, range: Option<string>): (r: bool)
    ensures r <==> (cluster != LiveCluster && range.Some?
      && Text.StartsWith(range.value, "bytes=") && !Text.StartsWith(range.value, "bytes=0-"))
  {
    if cluster == LiveCluster then false
    else match range
      case None => false
      case Some(header) =>
        if Text.StartsWith(header, "bytes=0-") then false
        else Text.StartsWith(header, "bytes=")
  }

  /** A range from offset zero is a plain request; a later offset is a seek. */
  lemma SeekExamples()
    ensures !IsSeekRequest(VideoCluster, Some("bytes=0-"))
    ensures IsSeekRequest(VideoCluster, Some("bytes=1024-"))
    ensures !IsSeekRequest(LiveCluster, Some("bytes=1024-"))
  {
    assert "bytes=1024-"[..|"bytes=0-"|] != "bytes=0-" by {
      assert "bytes=1024-"[6] == '1';
    }
    assert "bytes=1024-"[..|"bytes="|] == "bytes=";
  }

  // ---------------------------------------------------------------------
  // Alternative URLs
  // ---------------------------------------------------------------------

  datatype InputUserInfo = InputUserInfo(baseUrl: string, username: string, password: string)

  /**
   * `get_stream_alternative_url`: with user info on both sides, the base
   * URL, then the user name, then the password of the input are replaced by
   * those of the alias; otherwise the URL is kept.
   */
  function GetStreamAlternativeUrl(streamUrl: string, inputUserInfo: Option<InputUserInfo>,
                                   aliasUserInfo: Option<InputUserInfo>): (r: string)
    ensures inputUserInfo.None? || aliasUserInfo.None? ==> r == streamUrl
  {
    match (inputUserInfo, aliasUserInfo)
    case (Some(from), Some(to)) =>
      var modified := Text.Replace(streamUrl, from.baseUrl, to.baseUrl);
      var modified := Text.Replace(modified, from.username, to.username);
      Text.Replace(modified, from.password, to.password)
    case _ => streamUrl
  }

  /** An alias with the same user info as its input leaves every URL as it is. */
  lemma AlternativeUrlOfSameProvider(streamUrl: string, info: InputUserInfo)
    ensures GetStreamAlternativeUrl(streamUrl, Some(info), Some(info)) == streamUrl
  {
  }

  /** When none of the input's credentials occurs in the URL, the URL is kept. */
  lemma AlternativeUrlWithoutCredentials(streamUrl: string, from: InputUserInfo, to: InputUserInfo)
    requires from.baseUrl != [] && from.username != [] && from.password != []
    requires !Text.Contains(streamUrl, from.baseUrl) && !Text.Contains(streamUrl, from.username)
    requires !Text.Contains(streamUrl, from.password)
    ensures GetStreamAlternativeUrl(streamUrl, Some(from), Some(to)) == streamUrl
  {
  }

  /**
   * A provider URL of the form `base s1 user s2 password s3` is rewritten to
   * the alias's base URL, user name and password, the separators kept, when
   * each credential starts with a character found nowhere else it could
   * match (for example `http://a.tv/live/u1/k1/7.ts` with input
   * `http://a.tv`, `u1`, `k1` becomes `http://b.tv/live/u2/k2/7.ts`).
   */
  lemma AlternativeUrlRewrites(from: InputUserInfo, to: InputUserInfo, s1: string, s2: string, s3: string)
    requires from.baseUrl != [] && from.username != [] && from.password != []
    requires from.baseUrl[0] !in s1 + from.username + s2 + from.password + s3
    requires from.username[0] !in to.baseUrl + s1 && from.username[0] !in s2 + from.password + s3
    requires from.password[0] !in to.baseUrl + s1 + to.username + s2 && from.password[0] !in s3
    ensures GetStreamAlternativeUrl(from.baseUrl + s1 + from.username + s2 + from.password + s3, Some(from), Some(to))
         == to.baseUrl + s1 + to.username + s2 + to.password + s3
  {
    var b, u, p := from.baseUrl, from.username, from.password;
    ReplaceBaseUrl(b, to.baseUrl, s1, u, s2, p, s3);
    ReplaceUsername(to.baseUrl, s1, u, to.username, s2, p, s3);
    ReplacePassword(to.baseUrl, s1, to.username, s2, p, to.password, s3);
  }

  lemma ReplaceBaseUrl(b: string, b': string, s1: string, u: string, s2: string, p: string, s3: string)
    requires b != [] && b[0] !in s1 + u + s2 + p + s3
    ensures Text.Replace(b + s1 + u + s2 + p + s3, b, b') == b' + s1 + u + s2 + p + s3
  {
    var c := s1 + u + s2 + p + s3;
    Regroup(b, s1, u, s2, p, s3);
    Regroup(b', s1, u, s2, p, s3);
    assert [] + b + c == b + c && [] + b' + c == b' + c;
    Text.ReplaceOnce([], b, b', c);
  }

  lemma Regroup(x: string, s1: string, u: string, s2: string, p: string, s3: string)
    ensures x + s1 + u + s2 + p + s3 == x + (s1 + u + s2 + p + s3)
  {
  }

  lemma ReplaceUsername(b: string, s1: string, u: string, u': string, s2: string, p: string, s3: string)
    requires u != [] && u[0] !in b + s1 && u[0] !in s2 + p + s3
    ensures Text.Replace(b + s1 + u + s2 + p + s3, u, u') == b + s1 + u' + s2 + p + s3
  {
    assert b + s1 + u + s2 + p + s3 == (b + s1) + u + (s2 + p + s3);
    Text.ReplaceOnce(b + s1, u, u', s2 + p + s3);
    assert (b + s1) + u' + (s2 + p + s3) == b + s1 + u' + s2 + p + s3;
  }

  lemma ReplacePassword(b: string, s1: string, u: string, s2: string, p: string, p': string, s3: string)
    requires p != [] && p[0] !in b + s1 + u + s2 && p[0] !in s3
    ensures Text.Replace(b + s1 + u + s2 + p + s3, p, p') == b + s1 + u + s2 + p' + s3
  {
    Text.ReplaceOnce(b + s1 + u + s2, p, p', s3);
  }
}
