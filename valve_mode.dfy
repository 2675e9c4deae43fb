/**
 * The two operating modes of a valve channel and their text form in the
 * JSON exchanged with the dashboard.
 */
module ValveMode {

  datatype Mode = ManualPwm | HeartRhythm

  /** Text of a mode as the status report writes it (WebInterface.h:502). */
  function EncodeMode(m: Mode): (s: string)
    ensures s == "MANUAL_PWM" || s == "HEART_RHYTHM"
    ensures DecodeMode(s) == m
  {
    if m == ManualPwm then "MANUAL_PWM" else "HEART_RHYTHM"
  }

  /**
   * Mode named by a request's text (WebInterface.h:538): only the exact text
   * "MANUAL_PWM" selects manual PWM; every other text, the empty one and
   * misspellings included, selects the heart rhythm.
   */
  function DecodeMode(s: string): (m: Mode)
    ensures m == ManualPwm <==> s == "MANUAL_PWM"
  {
    if s == "MANUAL_PWM" then ManualPwm else HeartRhythm
  }

  /** Decoding is a left inverse of encoding only on the two canonical texts. */
  lemma EncodeDecode(s: string)
    ensures EncodeMode(DecodeMode(s)) == s <==> s == "MANUAL_PWM" || s == "HEART_RHYTHM"
  {
    if s != "MANUAL_PWM" && s != "HEART_RHYTHM" {
      assert EncodeMode(DecodeMode(s)) == "HEART_RHYTHM";
    }
  }
}
