/** Execution lanes and their work-in-progress limits (src/kanban-lane-wip.ts). */
module KanbanLanes {
  const LANES: set<string> := {"DEVELOPMENT", "EMAIL", "CALENDAR", "MONITORING", "MAINTENANCE", "ADMIN"}

  predicate ValidLane(lane: string) {
    lane in LANES
  }

  // A limit of zero or less means the lane is unlimited.
  predicate WipAllows(running: nat, limit: int) {
    limit <= 0 || running < limit
  }
}
