/**
 * The debug-build error reporting of engine/util/Utils.h: `to_string`,
 * which names a `VkResult` code, and the `VK_CHECK` macro, which reports a
 * non-zero result and exits.  A `VkResult` is its integer value as the
 * Vulkan headers number it; `__LINE__` and `__FILE__` are parameters.
 */
module VkCheck {

  const VkSuccess: int := 0
  const UnknownError: string := "UNKNOWN_ERROR"

  /** The codes the switch of `to_string` has a case for. */
  const ListedCodes: set<int> := {1, 2, 3, 4, 5, -1, -2, -3, -4, -5, -6, -7, -8, -9, -10, -11, -12, -13, -1000069000, -1000072003, -1000161000, -1000257000, -1000000000, -1000000001, 1000001003, -1000001004, -1000003001, -1000011001, -1000012000, -1000158000, -1000174001, -1000255000, 1000268000, 1000268001, 1000268002, 1000268003, 1000297000}

  /** The debug-build `to_string(VkResult)`: the enumerator's name, or "UNKNOWN_ERROR" from the `default` label. */
  function ToString(result: int): (name: string)
    ensures result !in ListedCodes ==> name == UnknownError
  {
    match result
      case 1 => "VK_NOT_READY"
      case 2 => "VK_TIMEOUT"
      case 3 => "VK_EVENT_SET"
      case 4 => "VK_EVENT_RESET"
      case 5 => "VK_INCOMPLETE"
      case -1 => "VK_ERROR_OUT_OF_HOST_MEMORY"
      case -2 => "VK_ERROR_OUT_OF_DEVICE_MEMORY"
      case -3 => "VK_ERROR_INITIALIZATION_FAILED"
      case -4 => "VK_ERROR_DEVICE_LOST"
      case -5 => "VK_ERROR_MEMORY_MAP_FAILED"
      case -6 => "VK_ERROR_LAYER_NOT_PRESENT"
      case -7 => "VK_ERROR_EXTENSION_NOT_PRESENT"
      case -8 => "VK_ERROR_FEATURE_NOT_PRESENT"
      case -9 => "VK_ERROR_INCOMPATIBLE_DRIVER"
      case -10 => "VK_ERROR_TOO_MANY_OBJECTS"
      case -11 => "VK_ERROR_FORMAT_NOT_SUPPORTED"
      case -12 => "VK_ERROR_FRAGMENTED_POOL"
      case -13 => "VK_ERROR_UNKNOWN"
      case -1000069000 => "VK_ERROR_OUT_OF_POOL_MEMORY"
      case -1000072003 => "VK_ERROR_INVALID_EXTERNAL_HANDLE"
      case -1000161000 => "VK_ERROR_FRAGMENTATION"
      case -1000257000 => "VK_ERROR_INVALID_OPAQUE_CAPTURE_ADDRESS"
      case -1000000000 => "VK_ERROR_SURFACE_LOST_KHR"
      case -1000000001 => "VK_ERROR_NATIVE_WINDOW_IN_USE_KHR"
      case 1000001003 => "VK_SUBOPTIMAL_KHR"
      case -1000001004 => "VK_ERROR_OUT_OF_DATE_KHR"
      case -1000003001 => "VK_ERROR_INCOMPATIBLE_DISPLAY_KHR"
      case -1000011001 => "VK_ERROR_VALIDATION_FAILED_EXT"
      case -1000012000 => "VK_ERROR_INVALID_SHADER_NV"
      case -1000158000 => "VK_ERROR_INVALID_DRM_FORMAT_MODIFIER_PLANE_LAYOUT_EXT"
      case -1000174001 => "VK_ERROR_NOT_PERMITTED_EXT"
      case -1000255000 => "VK_ERROR_FULL_SCREEN_EXCLUSIVE_MODE_LOST_EXT"
      case 1000268000 => "VK_THREAD_IDLE_KHR"
      case 1000268001 => "VK_THREAD_DONE_KHR"
      case 1000268002 => "VK_OPERATION_DEFERRED_KHR"
      case 1000268003 => "VK_OPERATION_NOT_DEFERRED_KHR"
      case 1000297000 => "VK_PIPELINE_COMPILE_REQUIRED_EXT"
      case _ => UnknownError
  }

  /** What a `VK_CHECK` leaves behind: execution goes on, or the process exits with this report and status. */
  datatype Outcome = Continue | Exit(report: string, status: int)

  /** The decimal text of `__LINE__`. */
  function Decimal(n: nat): (s: string)
    ensures |s| > 0 && forall k :: 0 <= k < |s| ==> '0' <= s[k] <= '9'
  {
    if n < 10 then [Digit(n)] else Decimal(n / 10) + [Digit(n % 10)]
  }

  function Digit(d: nat): (c: char)
    requires d < 10
    ensures '0' <= c <= '9'
  {
    "0123456789"[d]
  }

  /** The line `VK_CHECK` writes to standard output before exiting. */
  function Report(result: int, line: nat, file: string): string {
    "Error at line:" + Decimal(line) + " in " + file + ", Error name:" + ToString(result) + ".\n"
  }

  /**
   * `VK_CHECK(res)`: in a debug build a non-zero result is reported and the
   * process exits with status 1; in a release build the macro expands to the
   * bare expression and nothing is checked.
   */
  function Check(debug: bool, result: int, line: nat, file: string): (o: Outcome)
    ensures o.Continue? <==> !debug || result == VkSuccess
    ensures o.Exit? ==> o.status == 1
  {
    if debug && result != 0 then Exit(Report(result, line, file), 1) else Continue
  }

  // ---------------------------------------------------------------------------
  // Properties
  // ---------------------------------------------------------------------------

  /** Every code with a case is named by its own enumerator, never "UNKNOWN_ERROR". */
  lemma ListedCodesAreNamed(result: int)
    requires result in ListedCodes
    ensures ToString(result) != UnknownError
  {
    if result == 5 {
      assert ToString(5)[0] != UnknownError[0];
    } else if -13 <= result <= 4 {
      CoreCodeNameLengths(result);
    } else if -1000100000 <= result < 0 {
      ExtensionErrorNameLengths(result);
    } else if result < 0 {
      LaterExtensionErrorNameLengths(result);
    } else {
      ExtensionStatusNameLengths(result);
    }
  }

  /** The core codes other than `VK_INCOMPLETE` have names of another length than "UNKNOWN_ERROR". */
  lemma CoreCodeNameLengths(result: int)
    requires result in ListedCodes && -13 <= result <= 4
    ensures |ToString(result)| != |UnknownError|
  {
  }

  /** So do the extension error codes numbered below 100000 ... */
  lemma ExtensionErrorNameLengths(result: int)
    requires result in ListedCodes && -1000100000 <= result < -13
    ensures |ToString(result)| != |UnknownError|
  {
  }

  /** ... and the later ones. */
  lemma LaterExtensionErrorNameLengths(result: int)
    requires result in ListedCodes && result < -1000100000
    ensures |ToString(result)| != |UnknownError|
  {
  }

  /** And the extension status codes. */
  lemma ExtensionStatusNameLengths(result: int)
    requires result in ListedCodes && result > 5
    ensures |ToString(result)| != |UnknownError|
  {
  }

  /** `VK_SUCCESS` has no case, so it too is named "UNKNOWN_ERROR". */
  lemma SuccessIsUnknown()
    ensures ToString(VkSuccess) == UnknownError
  {
  }

  /** A failing check reports the code's name, or "UNKNOWN_ERROR", at the end of its report line. */
  lemma ReportEndsWithName(result: int, line: nat, file: string)
    requires result != VkSuccess
    ensures var o := Check(true, result, line, file);
      var tail := ToString(result) + ".\n";
      o.Exit? && |o.report| >= |tail| && o.report[|o.report| - |tail|..] == tail
  {
    var head := "Error at line:" + Decimal(line) + " in " + file + ", Error name:";
    assert Report(result, line, file) == head + (ToString(result) + ".\n");
  }

  /** A positive status code such as `VK_SUBOPTIMAL_KHR` is not an error to Vulkan, yet stops the program. */
  lemma SuboptimalStops(line: nat, file: string)
    ensures Check(true, 1000001003, line, file).Exit?
    ensures ToString(1000001003) == "VK_SUBOPTIMAL_KHR"
  {
  }
}
