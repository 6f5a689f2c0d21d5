/** The container statuses of the API and the event the monitor publishes. */
module Status {
  datatype ContainerStatus = PENDING | RUNNING | FAILED | UNKNOWN | DELETED

  datatype StatusEvent = StatusEvent(instanceId: string, status: ContainerStatus, message: string)
}
