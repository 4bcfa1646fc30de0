/** The tools both sides know by name. */
module Tools {
  import opened Strings

  const CONTAINER_WRITES: seq<string> := ["restart_container", "start_container", "stop_container"]
  const SERVICE_WRITES: seq<string> := ["restart_service", "start_service", "stop_service"]
  const WRITE_TOOLS: seq<string> := CONTAINER_WRITES + SERVICE_WRITES

  const NETWORK_READS: seq<string> :=
    ["dns_lookup", "ping_host", "http_check", "port_check", "network_interfaces", "route_table", "default_gateway",
     "listening_ports", "tailscale_status", "cloudflared_status"]

  const SERVICE_READS: seq<string> :=
    ["docker_list", "docker_inspect", "docker_logs", "docker_stats", "recent_docker_events", "service_status",
     "is_service_enabled", "journal_logs", "mongodb_atlas_connectivity", "check_application_health"]

  const HOST_READS: seq<string> :=
    ["cpu_usage", "memory_usage", "disk_usage", "filesystem_mounts", "temperatures", "system_uptime", "process_list",
     "find_process", "inspect_process"]

  const READ_TOOLS: seq<string> := NETWORK_READS + SERVICE_READS + HOST_READS

  predicate IsWrite(tool: string) {
    tool in WRITE_TOOLS
  }

  predicate IsStop(tool: string) {
    StartsWith(tool, "stop_")
  }
}
