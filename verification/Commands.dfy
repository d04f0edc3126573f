/** Privileged commands, and how long a call waits for each: timeout_for_cmd. */
module Commands {
  datatype Command = Command(name: string, args: string)

  function TimeoutMs(cmd: string): (ms: nat)
    ensures 15_000 <= ms <= 90_000
  {
    if cmd in ["run_hardware_discovery", "install_driver", "trigger_driver_scan",
               "clean_junk_files", "set_sys_opt_tweak", "ensure_ecram_service"] then 90_000
    else if cmd in ["wmi_ec_read_sensor_data", "wmi_ec_read_battery_health", "wmi_ec_read_adapter_power",
                    "wmi_ec_get_performance_mode", "diag_wmi_query", "set_battery_care", "set_eye_protection",
                    "set_os_turbo", "refresh_os_turbo", "set_function_key", "set_mic_noise_canceling",
                    "set_speaker_noise_canceling", "set_voice_focus", "ensure_face_service"] then 45_000
    else 15_000
  }

  /** The commands with a timeout longer than the thirty seconds in which a payload is fresh. */
  const SLOW: set<string> := {
    "run_hardware_discovery", "install_driver", "trigger_driver_scan", "clean_junk_files", "set_sys_opt_tweak",
    "ensure_ecram_service"
  }
  const MEDIUM: set<string> := {
    "wmi_ec_read_sensor_data", "wmi_ec_read_battery_health", "wmi_ec_read_adapter_power",
    "wmi_ec_get_performance_mode", "diag_wmi_query", "set_battery_care", "set_eye_protection", "set_os_turbo",
    "refresh_os_turbo", "set_function_key", "set_mic_noise_canceling", "set_speaker_noise_canceling",
    "set_voice_focus", "ensure_face_service"
  }

  /** Six commands may take a minute and a half, fourteen three quarters of a minute, and all others fifteen
      seconds. */
  lemma TimeoutTable(cmd: string)
    ensures TimeoutMs(cmd) == if cmd in SLOW then 90_000 else if cmd in MEDIUM then 45_000 else 15_000
  {
  }
}
