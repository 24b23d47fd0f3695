/** The simulated wallet-service adapters: input guards and the response
    records they return. */
module PassAdapters {
  import opened Wrappers
  import opened Text

  datatype PassUpdateResponse = PassUpdateResponse(success: bool, message: string)

  /** triggerPassUpdate: three guards, checked in order, the first failing
      one reported; otherwise success. */
  function TriggerPassUpdate(passSerialNumber: string, rewardPoints: int, totalVisits: int): (r: PassUpdateResponse)
    ensures r.success <==> !IsBlank(passSerialNumber) && rewardPoints >= 0 && totalVisits >= 0
    ensures IsBlank(passSerialNumber) ==> r.message == "Pass serial number is required"
    ensures !IsBlank(passSerialNumber) && rewardPoints < 0 ==> r.message == "Reward points cannot be negative"
    ensures !IsBlank(passSerialNumber) && rewardPoints >= 0 && totalVisits < 0 ==>
      r.message == "Total visits cannot be negative"
    ensures r.success ==> r.message == "Pass " + passSerialNumber + " updated successfully"
  {
    TrimEmptyIffBlank(passSerialNumber);
    if passSerialNumber == "" || Trim(passSerialNumber) == "" then
      PassUpdateResponse(false, "Pass serial number is required")
    else if rewardPoints < 0 then
      PassUpdateResponse(false, "Reward points cannot be negative")
    else if totalVisits < 0 then
      PassUpdateResponse(false, "Total visits cannot be negative")
    else
      PassUpdateResponse(true, "Pass " + passSerialNumber + " updated successfully")
  }

  datatype PassCreationResponse = PassCreationResponse(
    success: bool, message: string, passSerialNumber: Option<string>)

  /** triggerPassCreation: `generatedSerial` stands for the serial the
      adapter makes up from the clock and a random number. */
  function TriggerPassCreation(userId: int, firstName: string, lastName: string, phoneNumber: string,
                               generatedSerial: string): (r: PassCreationResponse)
    ensures r.success <==> !IsBlank(firstName) && !IsBlank(lastName) && !IsBlank(phoneNumber) && userId > 0
    ensures r.success <==> r.passSerialNumber == Some(generatedSerial)
    ensures !r.success ==> r.passSerialNumber.None?
    ensures (IsBlank(firstName) || IsBlank(lastName) || IsBlank(phoneNumber)) ==>
      r.message == "Missing required fields: firstName, lastName, and phoneNumber are required"
    ensures !IsBlank(firstName) && !IsBlank(lastName) && !IsBlank(phoneNumber) && userId <= 0 ==>
      r.message == "Invalid userId: must be a positive number"
    ensures r.success ==> r.message == "Pass creation triggered successfully"
  {
    TrimEmptyIffBlank(firstName);
    TrimEmptyIffBlank(lastName);
    TrimEmptyIffBlank(phoneNumber);
    if Trim(firstName) == "" || Trim(lastName) == "" || Trim(phoneNumber) == "" then
      PassCreationResponse(false, "Missing required fields: firstName, lastName, and phoneNumber are required", None)
    else if userId <= 0 then
      PassCreationResponse(false, "Invalid userId: must be a positive number", None)
    else
      PassCreationResponse(true, "Pass creation triggered successfully", Some(generatedSerial))
  }
}
