/**
  The platform's pipeline-job record, reduced to the fields the retraining core reads or writes.
 */
module Jobs {
  import opened Results

  /** One named input of a job: the data it reads and how it is mounted. */
  datatype JobInput = JobInput(path: string, mode: string)

  /**
    A pipeline job as the job-management client returns it. `name` is the platform identifier
    (`None` on a submission asks the platform to create a new job); `definition` stands for
    the rest of the pipeline definition, which this model never inspects.
   */
  datatype Job = Job(
    name: Option<string>,
    displayName: string,
    status: string,
    inputs: map<string, JobInput>,
    definition: string)

  const Completed: string := "Completed"
  const Failed: string := "Failed"
  const Running: string := "Running"
}
