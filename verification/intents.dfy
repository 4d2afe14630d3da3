/** The intent labels of `pkg/common/classifications.go`. An intent travels
    through the system as a plain string (Go's `common.Intent(s)` cast accepts
    any string), so the closed set below is a vocabulary, not a restriction. */
module Intents {
  import opened Wrappers

  datatype KnownIntent =
    | VoiceInterested
    | VoiceNotInterested
    | VoiceImmediateHangup
    | VoiceWrongNumber
    | VoiceNoAction
    | VoiceWantsCallBack
    | VoiceWantsEmailFollowUp
    | VoiceWantsWhatsappSmsFollowUp
    | VoiceVoiceMail
    | VoiceUnknown

  /** The wire spelling of a known intent. */
  function Label(k: KnownIntent): string {
    match k
    case VoiceInterested => "voice_interested"
    case VoiceNotInterested => "voice_not_interested"
    case VoiceImmediateHangup => "voice_immediate_hangup"
    case VoiceWrongNumber => "voice_wrong_number"
    case VoiceNoAction => "voice_no_action"
    case VoiceWantsCallBack => "voice_wants_call_back"
    case VoiceWantsEmailFollowUp => "voice_wants_email_follow_up"
    case VoiceWantsWhatsappSmsFollowUp => "voice_wants_whatsapp_sms_follow_up"
    case VoiceVoiceMail => "voice_voice_mail"
    case VoiceUnknown => "voice_unknown"
  }

  /** Recognises the spelling of a known intent; any other string is `None`. */
  function Recognise(s: string): Option<KnownIntent> {
    if s == "voice_interested" then Some(VoiceInterested)
    else if s == "voice_not_interested" then Some(VoiceNotInterested)
    else if s == "voice_immediate_hangup" then Some(VoiceImmediateHangup)
    else if s == "voice_wrong_number" then Some(VoiceWrongNumber)
    else if s == "voice_no_action" then Some(VoiceNoAction)
    else if s == "voice_wants_call_back" then Some(VoiceWantsCallBack)
    else if s == "voice_wants_email_follow_up" then Some(VoiceWantsEmailFollowUp)
    else if s == "voice_wants_whatsapp_sms_follow_up" then Some(VoiceWantsWhatsappSmsFollowUp)
    else if s == "voice_voice_mail" then Some(VoiceVoiceMail)
    else if s == "voice_unknown" then Some(VoiceUnknown)
    else None
  }

  /** The spelling of every known intent is recognised as that intent, and a
      recognised string is exactly the spelling of what it was recognised as;
      in particular the ten spellings are pairwise distinct. */
  lemma LabelRoundTrip(k: KnownIntent, s: string)
    ensures Recognise(Label(k)) == Some(k)
    ensures Recognise(s) == Some(k) <==> s == Label(k)
  {
  }

  /** The sentinel that every fail-safe path falls back to. */
  const Unknown: string := Label(VoiceUnknown)
  const Interested: string := Label(VoiceInterested)
  const WantsCallBack: string := Label(VoiceWantsCallBack)
}
